/** The names the downloader (yt.py) writes and the server (backend.py)
    parses back: the video file name `title [id].ext`, the top-level comment
    file `c_NNNNN.json` with its replies folder `c_NNNNN`, and the like count
    written under "likes" and read as "like_count". */
module RoundTrip {

  import opened Wrappers
  import opened Text
  import Sorting
  import Catalogue
  import CommentStore
  import Downloader

  /** An id the server reads back unchanged: no brackets and no whitespace
      at either end. */
  predicate PlainId(id: string) {
    '[' !in id && ']' !in id && (id != [] ==> id[0] !in PyWhitespace && id[|id| - 1] !in PyWhitespace)
  }

  /** The id of a downloaded file's base name is the video's id. */
  lemma VideoIdRoundTrip(info: Downloader.VideoInfo, ext: string)
    requires PlainId(info.id) && '.' !in ext
    ensures Catalogue.ExtractId(Catalogue.SplitExtRoot(Downloader.OutputBase(info) + "." + ext)) == info.id
  {
    var base := Downloader.OutputBase(info);
    var p := |info.title| + 1;
    ExtensionSplitsOff(info, ext);
    BracketBeforeId(info);
    Catalogue.ExtractIdAfterLastBracket(base, p);
    RStripOne(info.id, ']');
    StripUnchanged(info.id, PyWhitespace);
  }

  /** Splitting the extension off a downloaded file name gives its base name. */
  lemma ExtensionSplitsOff(info: Downloader.VideoInfo, ext: string)
    requires '.' !in ext
    ensures Catalogue.SplitExtRoot(Downloader.OutputBase(info) + "." + ext) == Downloader.OutputBase(info)
  {
    var base := Downloader.OutputBase(info);
    assert base[|info.title| + 1] == '[';
    assert base + "." + ext == base + ['.'] + ext;
    Catalogue.SplitExtAppend(base, ext);
  }

  /** The last '[' of a base name is the one before the id. */
  lemma BracketBeforeId(info: Downloader.VideoInfo)
    requires '[' !in info.id
    ensures var base := Downloader.OutputBase(info);
      && ']' in base
      && LastIndex(base, '[') == Some(|info.title| + 1)
      && base[|info.title| + 2..] == info.id + "]"
  {
    var base := Downloader.OutputBase(info);
    var p := |info.title| + 1;
    assert base[p] == '[';
    assert base[|base| - 1] == ']';
    var tail := base[p + 1..];
    assert tail == info.id + "]";
    assert '[' !in tail;
  }

  /** The replies folder the server derives from a top-level comment file is
      the one the downloader wrote that comment's replies into; below 100000
      its index has exactly five digits and reads back as the comment's
      number. */
  lemma RepliesFolderRoundTrip(n: nat)
    ensures CommentStore.RepliesDirName(Downloader.TopFileName(n)) == Some(Downloader.RepliesFolderName(n))
    ensures var digits := Downloader.RepliesFolderName(n)[2..];
      AllDigits(digits) && ValueOf(digits) == n && (n < 100000 ==> |digits| == 5)
  {
    var z := ZeroPad(n, 5);
    assert Pow10(5) == 100000;
    ZeroPadValue(n, 5);
    var parts := Split(Downloader.TopFileName(n), '_');
    TopFileParts(z);
    assert parts == ["c", z + ".json"];
    StemOfJson(z);
    assert Downloader.RepliesFolderName(n)[2..] == z;
  }

  lemma TopFileParts(z: string)
    requires AllDigits(z)
    ensures Split("c_" + z + ".json", '_') == ["c", z + ".json"]
  {
    DigitsExclude(z, '_');
    var rest := z + ".json";
    assert "c_" + z + ".json" == "c" + ['_'] + rest;
    SplitAfterFirst("c", rest, '_');
    assert '_' !in rest;
    SplitNoSep(rest, '_');
  }

  lemma StemOfJson(z: string)
    requires AllDigits(z)
    ensures Split(z + ".json", '.')[0] == z
  {
    DigitsExclude(z, '.');
    assert z + ".json" == z + ['.'] + "json";
    SplitAfterFirst(z, "json", '.');
  }

  /** Below 100000, file names of one kind compare as their numbers do. */
  lemma NameOrderIsNumberOrder(prefix: string, n: nat, m: nat)
    requires n < 100000 && m < 100000
    ensures StrLe(prefix + ZeroPad(n, 5) + ".json", prefix + ZeroPad(m, 5) + ".json") <==> n <= m
  {
    var a, b := ZeroPad(n, 5), ZeroPad(m, 5);
    assert Pow10(5) == 100000;
    ZeroPadValue(n, 5);
    ZeroPadValue(m, 5);
    assert prefix + a + ".json" == prefix + (a + ".json");
    assert prefix + b + ".json" == prefix + (b + ".json");
    StrLeCommonPrefix(prefix, a + ".json", b + ".json");
    if a == b {
      StrLeTotal(a + ".json", a + ".json");
    } else {
      StrLeSameLength(a, ".json", b, ".json");
      DigitOrder(a, b);
    }
  }

  /** `c_00001.json` .. `c_<k>.json`, the top-level files after k comments. */
  function TopNames(k: nat): (r: seq<string>)
    ensures |r| == k && forall i :: 0 <= i < k ==> r[i] == Downloader.TopFileName(i + 1)
  {
    if k == 0 then [] else TopNames(k - 1) + [Downloader.TopFileName(k)]
  }

  lemma TopNamesSorted(k: nat)
    requires k < 100000
    ensures Sorting.SortedBy(TopNames(k), StrLe)
  {
    var names := TopNames(k);
    forall i, j | 0 <= i < j < k
      ensures StrLe(names[i], names[j])
    {
      NameOrderIsNumberOrder("c_", i + 1, j + 1);
    }
  }

  /** Whatever order the directory lists them in, the server reads the
      top-level files of the first k comments in the order the downloader
      numbered them. */
  lemma TopFilesReadInNumberOrder(listing: seq<string>, files: map<string, CommentStore.FileContent>, k: nat)
    requires k < 100000 && multiset(listing) == multiset(TopNames(k))
    ensures CommentStore.SortedListing(CommentStore.Folder(listing, files)) == TopNames(k)
  {
    CommentStore.NameOrder();
    Sorting.SortSorted(listing, StrLe);
    TopNamesSorted(k);
    Sorting.SortedUnique(Sorting.Sort(listing, StrLe), TopNames(k), StrLe);
  }

  function OptionalString(v: Option<string>): CommentStore.Value {
    match v
    case None => CommentStore.Null
    case Some(s) => CommentStore.Str(s)
  }

  function OptionalInt(v: Option<int>): CommentStore.Value {
    match v
    case None => CommentStore.Null
    case Some(i) => CommentStore.Int(i)
  }

  /** The JSON object save_comment and save_reply write. */
  function Encode(c: Downloader.SavedComment): CommentStore.JsonObject {
    map["id" := OptionalString(c.id), "author" := OptionalString(c.author),
        "timestamp" := OptionalInt(c.timestamp), "text" := OptionalString(c.text),
        "likes" := CommentStore.Int(c.likes)]
  }

  /** The like count written under "likes" is served as "like_count", and
      every written field is served unchanged. */
  lemma LikesRoundTrip(c: Downloader.SavedComment)
    ensures var served := CommentStore.Normalize(Encode(c));
      && served["like_count"] == CommentStore.Int(c.likes)
      && (forall k :: k in Encode(c) ==> k in served && served[k] == Encode(c)[k])
      && served.Keys == Encode(c).Keys + {"like_count"}
  {
    assert "like_count" !in Encode(c);
  }
}
