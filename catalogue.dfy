/** The catalogue server (backend.py): the scan of the videos directory that
    turns downloaded files into video records, and the read-only endpoints
    that filter, page and look up those records. The filesystem is given as
    values: each channel directory with its folder listings and the meta.json
    files it holds. */
module Catalogue {

  import opened Wrappers
  import opened Text

  /** The folder a file sits in; the API reports it as the record's "type". */
  datatype Kind = Video | Shorts

  function KindName(k: Kind): string {
    match k
    case Video => "video"
    case Shorts => "shorts"
  }

  function FolderName(k: Kind): string {
    match k
    case Video => "videos"
    case Shorts => "shorts"
  }

  /** The keys of a meta.json the scan reads; `None` is an absent key. */
  datatype Meta = Meta(videoId: Option<string>, title: Option<string>,
                       channel: Option<string>, duration: Option<int>)

  /** A meta.json that exists: parsed, or failing to open or parse. */
  datatype MetaFile = Parsed(meta: Meta) | Unreadable

  /** One entry of the videos directory. `videos` and `shorts` are the
      listings of its two sub-folders (`None` when the folder does not exist);
      `metas` maps a video id to the file comments/<id>/meta.json. */
  datatype ChannelDir = ChannelDir(
    name: string,
    isDir: bool,
    videos: Option<seq<string>>,
    shorts: Option<seq<string>>,
    metas: map<string, MetaFile>)

  /** One record of the catalogue (a dict built by get_all_videos). */
  datatype VideoRecord = VideoRecord(
    videoId: string,
    title: string,
    channel: string,
    duration: int,
    kind: Kind,
    filePath: string,
    commentsPath: string)

  /** The directory all paths of the catalogue are relative to. */
  const VideosDir: string := "videos"

  function Listing(k: Kind, ch: ChannelDir): seq<string> {
    match k
    case Video => ch.videos.GetOr([])
    case Shorts => ch.shorts.GetOr([])
  }

  /** `os.path.join` for relative components without slashes of their own. */
  function PathJoin(parts: seq<string>): string {
    Join(parts, '/')
  }

  predicate HasVideoExtension(file: string) {
    EndsWith(file, ".mp4") || EndsWith(file, ".mkv") || EndsWith(file, ".webm")
  }

  /** `os.path.splitext(name)[0]` for a name without '/': the text before the
      last '.', unless only dots precede that '.'. */
  function SplitExtRoot(name: string): string {
    match LastIndex(name, '.')
    case None => name
    case Some(d) => if forall i :: 0 <= i < d ==> name[i] == '.' then name else name[..d]
  }

  /** Splitting off an extension "." + `rest` (which has no '.') gives back
      the base, unless the base is all dots. */
  lemma SplitExtAppend(base: string, rest: string)
    requires '.' !in rest
    requires exists i :: 0 <= i < |base| && base[i] != '.'
    ensures SplitExtRoot(base + ['.'] + rest) == base
  {
    var name := base + ['.'] + rest;
    var r := LastIndex(name, '.');
    assert name[|base|] == '.';
    assert r == Some(|base|);
    assert name[..|base|] == base;
  }

  /** The video id of a base name "Title [id]": when the name contains both
      '[' and ']', the text after the last '[' with trailing ']' removed and
      whitespace stripped; otherwise the whole name. */
  function ExtractId(base: string): string {
    if '[' in base && ']' in base then
      Strip(RStrip(Last(Split(base, '[')), {']'}), PyWhitespace)
    else
      base
  }

  /** When the base name contains ']' and its last '[' is at index `k`, the id
      is the text after position `k`, trailing ']' removed, then stripped. */
  lemma ExtractIdAfterLastBracket(base: string, k: nat)
    requires ']' in base && LastIndex(base, '[') == Some(k)
    ensures ExtractId(base) == Strip(RStrip(base[k + 1..], {']'}), PyWhitespace)
  {
    LastPieceAfter(base, k);
    assert '[' in base by { assert base[k] == '['; }
  }

  /** The last piece of splitting at '[' is the text after the last '['. */
  lemma LastPieceAfter(base: string, k: nat)
    requires LastIndex(base, '[') == Some(k)
    ensures Last(Split(base, '[')) == base[k + 1..]
  {
    var tail := base[k + 1..];
    AfterLastIndex(base, '[', k);
    SplitAround(base, k);
    SplitLast(base[..k], tail, '[');
  }

  /** The record the scan makes of one listed file, if any. */
  function FileEntry(ch: ChannelDir, kind: Kind, file: string): Option<VideoRecord> {
    if !HasVideoExtension(file) then None
    else
      var base := SplitExtRoot(file);
      var id := ExtractId(base);
      if id in ch.metas && ch.metas[id].Parsed? then
        var m := ch.metas[id].meta;
        Some(VideoRecord(
          m.videoId.GetOr(id),
          m.title.GetOr(base),
          m.channel.GetOr(ch.name),
          m.duration.GetOr(0),
          kind,
          PathJoin([ch.name, FolderName(kind), file]),
          PathJoin([ch.name, "comments", id])))
      else None
  }

  function OptionSeq<T>(o: Option<T>): seq<T> {
    match o
    case Some(x) => [x]
    case None => []
  }

  /** The records of the listed files of one folder, in listing order. */
  function FolderEntries(ch: ChannelDir, kind: Kind, files: seq<string>): seq<VideoRecord> {
    if files == [] then []
    else FolderEntries(ch, kind, files[..|files| - 1]) + OptionSeq(FileEntry(ch, kind, Last(files)))
  }

  /** The records of one channel: its videos folder, then its shorts folder;
      nothing when the entry is not a directory. */
  function ChannelEntries(ch: ChannelDir): seq<VideoRecord> {
    if !ch.isDir then []
    else FolderEntries(ch, Video, Listing(Video, ch)) + FolderEntries(ch, Shorts, Listing(Shorts, ch))
  }

  /** The catalogue: the records of every channel, in listing order. */
  function CatalogueOf(channels: seq<ChannelDir>): seq<VideoRecord> {
    if channels == [] then []
    else CatalogueOf(channels[..|channels| - 1]) + ChannelEntries(Last(channels))
  }

  /** get_all_videos: scans every channel directory and both of its folders
      and appends one record per catalogued file. */
  method GetAllVideos(channels: seq<ChannelDir>) returns (videos: seq<VideoRecord>)
    ensures videos == CatalogueOf(channels)
  {
    videos := [];
    var c := 0;
    while c < |channels|
      invariant 0 <= c <= |channels|
      invariant videos == CatalogueOf(channels[..c])
    {
      CatalogueStep(channels, c);
      var found := ScanChannel(channels[c]);
      videos := videos + found;
      c := c + 1;
    }
    WholePrefix(channels);
  }

  /** One pass of the loop over the channel directories: the videos folder,
      then the shorts folder, of a directory entry. */
  method ScanChannel(ch: ChannelDir) returns (found: seq<VideoRecord>)
    ensures found == ChannelEntries(ch)
  {
    found := [];
    if ch.isDir {
      var videos := ScanFolder(ch, Video, Listing(Video, ch));
      var shorts := ScanFolder(ch, Shorts, Listing(Shorts, ch));
      found := videos + shorts;
    }
  }

  lemma CatalogueStep(channels: seq<ChannelDir>, c: nat)
    requires c < |channels|
    ensures CatalogueOf(channels[..c + 1]) == CatalogueOf(channels[..c]) + ChannelEntries(channels[c])
  {
    PrefixStep(channels, c);
  }

  /** The inner loop of get_all_videos over one folder's listing. */
  method ScanFolder(ch: ChannelDir, kind: Kind, files: seq<string>) returns (found: seq<VideoRecord>)
    ensures found == FolderEntries(ch, kind, files)
  {
    found := [];
    var i := 0;
    while i < |files|
      invariant 0 <= i <= |files|
      invariant found == FolderEntries(ch, kind, files[..i])
    {
      FolderEntriesStep(ch, kind, files, i);
      var entry := FileEntry(ch, kind, files[i]);
      if entry.Some? {
        found := found + [entry.value];
      }
      i := i + 1;
    }
    WholePrefix(files);
  }

  lemma FolderEntriesStep(ch: ChannelDir, kind: Kind, files: seq<string>, i: nat)
    requires i < |files|
    ensures FolderEntries(ch, kind, files[..i + 1]) == FolderEntries(ch, kind, files[..i]) + OptionSeq(FileEntry(ch, kind, files[i]))
  {
    PrefixStep(files, i);
  }

  // ---------------------------------------------------------------------
  // What the scan produces

  /** A record is in the catalogue exactly when some listed file of some
      channel directory produces it. */
  lemma {:induction false} CatalogueMembership(channels: seq<ChannelDir>, v: VideoRecord)
    ensures v in CatalogueOf(channels) <==>
      exists c, kind, file :: 0 <= c < |channels| && channels[c].isDir &&
        file in Listing(kind, channels[c]) && FileEntry(channels[c], kind, file) == Some(v)
  {
    if channels != [] {
      var init := channels[..|channels| - 1];
      var ch := Last(channels);
      CatalogueMembership(init, v);
      FolderMembership(ch, Video, Listing(Video, ch), v);
      FolderMembership(ch, Shorts, Listing(Shorts, ch), v);
      if v in CatalogueOf(channels) && v !in CatalogueOf(init) {
        assert ch.isDir && channels[|channels| - 1] == ch;
        if v in FolderEntries(ch, Video, Listing(Video, ch)) {
          var file :| file in Listing(Video, ch) && FileEntry(ch, Video, file) == Some(v);
          assert FileEntry(channels[|channels| - 1], Video, file) == Some(v);
        } else {
          var file :| file in Listing(Shorts, ch) && FileEntry(ch, Shorts, file) == Some(v);
          assert FileEntry(channels[|channels| - 1], Shorts, file) == Some(v);
        }
      }
      if exists c, kind, file :: 0 <= c < |channels| && channels[c].isDir &&
          file in Listing(kind, channels[c]) && FileEntry(channels[c], kind, file) == Some(v) {
        var c, kind, file :| 0 <= c < |channels| && channels[c].isDir &&
          file in Listing(kind, channels[c]) && FileEntry(channels[c], kind, file) == Some(v);
        if c < |channels| - 1 {
          assert init[c] == channels[c];
        } else {
          assert kind == Video || kind == Shorts;
        }
      }
    }
  }

  lemma {:induction false} FolderMembership(ch: ChannelDir, kind: Kind, files: seq<string>, v: VideoRecord)
    ensures v in FolderEntries(ch, kind, files) <==> exists file :: file in files && FileEntry(ch, kind, file) == Some(v)
  {
    if files != [] {
      var init := files[..|files| - 1];
      FolderMembership(ch, kind, init, v);
      InitLast(files);
    }
  }

  /** Every catalogued record comes from a file with a video extension and a
      readable meta.json: its path is channel/folder-of-its-kind/file, its
      comments path is channel/comments/id of the file name, and each field
      missing from meta.json falls back to the file-derived id, the base
      name, the channel directory name and 0. */
  lemma CatalogueRecordOrigin(channels: seq<ChannelDir>, v: VideoRecord)
    requires v in CatalogueOf(channels)
    ensures exists c, file :: (0 <= c < |channels| && channels[c].isDir &&
      file in Listing(v.kind, channels[c]) && HasVideoExtension(file) && FromFile(channels[c], file, v))
  {
    CatalogueMembership(channels, v);
    var c, kind, file :| 0 <= c < |channels| && channels[c].isDir &&
      file in Listing(kind, channels[c]) && FileEntry(channels[c], kind, file) == Some(v);
    FileEntryOrigin(channels[c], kind, file, v);
  }

  /** What one file's record is made of. */
  lemma FileEntryOrigin(ch: ChannelDir, kind: Kind, file: string, v: VideoRecord)
    requires FileEntry(ch, kind, file) == Some(v)
    ensures v.kind == kind && HasVideoExtension(file) && FromFile(ch, file, v)
  {
  }

  /** `v`'s fields are the ones the scan derives from `file` and its
      meta.json in channel directory `ch`. */
  predicate FromFile(ch: ChannelDir, file: string, v: VideoRecord) {
    var base := SplitExtRoot(file);
    var id := ExtractId(base);
    && id in ch.metas && ch.metas[id].Parsed?
    && v.filePath == PathJoin([ch.name, FolderName(v.kind), file])
    && v.commentsPath == PathJoin([ch.name, "comments", id])
    && v.videoId == ch.metas[id].meta.videoId.GetOr(id)
    && v.title == ch.metas[id].meta.title.GetOr(base)
    && v.channel == ch.metas[id].meta.channel.GetOr(ch.name)
    && v.duration == ch.metas[id].meta.duration.GetOr(0)
  }

  /** A served path ends with the extension of the file it names. */
  lemma RecordPathHasVideoExtension(channels: seq<ChannelDir>, v: VideoRecord)
    requires v in CatalogueOf(channels)
    ensures HasVideoExtension(v.filePath)
  {
    CatalogueRecordOrigin(channels, v);
    var c, file :| 0 <= c < |channels| && channels[c].isDir &&
      file in Listing(v.kind, channels[c]) && HasVideoExtension(file) && FromFile(channels[c], file, v);
    JoinedPathExtension(channels[c].name, FolderName(v.kind), file);
  }

  lemma JoinedPathExtension(a: string, b: string, file: string)
    requires HasVideoExtension(file)
    ensures HasVideoExtension(PathJoin([a, b, file]))
  {
    var p := a + "/" + b + "/";
    PathJoinThree(a, b, file);
    assert PathJoin([a, b, file]) == p + file;
    if EndsWith(file, ".mp4") {
      EndsWithAppend(p, file, ".mp4");
    } else if EndsWith(file, ".mkv") {
      EndsWithAppend(p, file, ".mkv");
    } else {
      EndsWithAppend(p, file, ".webm");
    }
  }

  lemma PathJoinTwo(a: string, b: string)
    ensures PathJoin([a, b]) == a + "/" + b
  {
    assert [a, b][1..] == [b];
    assert Join([b], '/') == b;
    assert a + "/" + b == a + ['/'] + b;
  }

  lemma PathJoinThree(a: string, b: string, c: string)
    ensures PathJoin([a, b, c]) == a + "/" + b + "/" + c
  {
    assert [a, b, c][1..] == [b, c];
    PathJoinTwo(b, c);
  }

  lemma EndsWithAppend(p: string, s: string, suffix: string)
    requires EndsWith(s, suffix)
    ensures EndsWith(p + s, suffix)
  {
    assert (p + s)[|p + s| - |suffix|..] == s[|s| - |suffix|..];
  }

  // ---------------------------------------------------------------------
  // Filters

  /** `[v for v in all_videos if v['type'] == kind]`: each record of that
      kind as often as the catalogue holds it, and no other. */
  function OfKind(vs: seq<VideoRecord>, kind: Kind): (r: seq<VideoRecord>)
    ensures forall v :: v in r <==> v in vs && v.kind == kind
    ensures forall v :: multiset(r)[v] == if v.kind == kind then multiset(vs)[v] else 0
    ensures |r| <= |vs|
  {
    if vs == [] then []
    else
      var init := vs[..|vs| - 1];
      InitLast(vs);
      assert multiset(vs) == multiset(init) + multiset{Last(vs)};
      OfKind(init, kind) + (if Last(vs).kind == kind then [Last(vs)] else [])
  }

  /** The search predicate: the lower-cased query occurs in the lower-cased
      title or the lower-cased channel. */
  predicate Matches(v: VideoRecord, query: string) {
    Contains(Lower(v.title), Lower(query)) || Contains(Lower(v.channel), Lower(query))
  }

  /** The comprehension of search_videos: each matching record as often as
      the catalogue holds it, and no other; the empty query keeps every
      record. */
  function SearchFilter(vs: seq<VideoRecord>, query: string): (r: seq<VideoRecord>)
    ensures forall v :: v in r <==> v in vs && Matches(v, query)
    ensures forall v :: multiset(r)[v] == if Matches(v, query) then multiset(vs)[v] else 0
    ensures query == [] ==> r == vs
    ensures |r| <= |vs|
  {
    if vs == [] then []
    else
      var init := vs[..|vs| - 1];
      InitLast(vs);
      assert multiset(vs) == multiset(init) + multiset{Last(vs)};
      assert query == [] ==> Matches(Last(vs), query);
      SearchFilter(init, query) + (if Matches(Last(vs), query) then [Last(vs)] else [])
  }

  // ---------------------------------------------------------------------
  // Paging

  /** Python's normalisation of a slice bound against a length `n`. */
  function SliceBound(i: int, n: nat): (r: nat)
    ensures r <= n
  {
    if i < 0 then (if i + n < 0 then 0 else i + n)
    else if i > n then n
    else i
  }

  /** Python's `s[start:stop]`, negative bounds included. */
  function PySlice<T>(s: seq<T>, start: int, stop: int): seq<T> {
    var a, b := SliceBound(start, |s|), SliceBound(stop, |s|);
    if a < b then s[a..b] else []
  }

  /** The page every endpoint returns: `items[skip:skip + limit]`. */
  function Page<T>(s: seq<T>, skip: int, limit: int): seq<T> {
    PySlice(s, skip, skip + limit)
  }

  function Min(a: int, b: int): int { if a <= b then a else b }

  function Max(a: int, b: int): int { if a >= b then a else b }

  /** For non-negative `skip` and `limit` a page is the contiguous slice
      starting at `skip`, of length min(limit, max(0, n - skip)). */
  lemma PageShape<T>(s: seq<T>, skip: nat, limit: nat)
    ensures Page(s, skip, limit) == s[Min(skip, |s|)..Min(skip + limit, |s|)]
    ensures |Page(s, skip, limit)| == Min(limit, Max(0, |s| - skip))
  {
  }

  /** Every element of a page is an element of the list it is cut from. */
  lemma PageElements<T>(s: seq<T>, skip: int, limit: int)
    ensures forall x :: x in Page(s, skip, limit) ==> x in s
  {
    var a, b := SliceBound(skip, |s|), SliceBound(skip + limit, |s|);
    if a < b {
      forall x | x in s[a..b] ensures x in s {
        var j :| 0 <= j < b - a && s[a..b][j] == x;
        assert s[a + j] == x;
      }
    }
  }

  /** The first `k` pages of size `limit`, requested with skip = 0, limit,
      2 * limit, ..., one after the other. */
  function Pages<T>(s: seq<T>, limit: nat, k: nat): seq<T> {
    if k == 0 then [] else Pages(s, limit, k - 1) + Page(s, (k - 1) * limit, limit)
  }

  /** Consecutive pages neither overlap nor leave gaps: the first `k` pages
      together are exactly the first min(k * limit, n) items. */
  lemma {:induction false} PagesCover<T>(s: seq<T>, limit: nat, k: nat)
    ensures Pages(s, limit, k) == s[..Min(k * limit, |s|)]
  {
    if k > 0 {
      NextMultiple(k, limit);
      var before := (k - 1) * limit;
      PagesCover(s, limit, k - 1);
      PageShape(s, before, limit);
      SliceSplit(s, Min(before, |s|), Min(before + limit, |s|));
    }
  }

  lemma NextMultiple(k: nat, limit: nat)
    requires k > 0
    ensures (k - 1) * limit >= 0 && k * limit == (k - 1) * limit + limit
  {
  }

  lemma SliceSplit<T>(s: seq<T>, m: nat, n: nat)
    requires m <= n <= |s|
    ensures s[..n] == s[..m] + s[m..n]
  {
  }

  /** ceil(n / limit) pages hold the whole list. */
  lemma PagesCoverAll<T>(s: seq<T>, limit: nat)
    requires limit > 0
    ensures Pages(s, limit, PageCount(|s|, limit)) == s
  {
    PagesCover(s, limit, PageCount(|s|, limit));
    assert s[..|s|] == s;
  }

  /** ceil(n / limit): the fewest pages of size `limit` that hold n items. */
  function PageCount(n: nat, limit: nat): (k: nat)
    requires limit > 0
    ensures k * limit >= n
    ensures k > 0 ==> (k - 1) * limit < n
  {
    var q, r := (n + limit - 1) / limit, (n + limit - 1) % limit;
    assert q * limit + r == n + limit - 1 && r < limit;
    assert (q - 1) * limit == q * limit - limit;
    q
  }

  // ---------------------------------------------------------------------
  // Endpoints

  /** The default page sizes of the endpoints. */
  const VideosDefaultLimit := 20
  const ShortsDefaultLimit := 10
  const SearchDefaultLimit := 20

  /** The placeholder every item reports as its thumbnail. */
  const Placeholder: string := "/static/placeholder.jpg"

  /** The response model VideoItem. */
  datatype VideoItem = VideoItem(videoId: string, title: string, channel: string,
                                 duration: int, thumbnailPath: string, kind: string)

  function ToItem(v: VideoRecord): VideoItem {
    VideoItem(v.videoId, v.title, v.channel, v.duration, Placeholder, KindName(v.kind))
  }

  function Items(vs: seq<VideoRecord>): (r: seq<VideoItem>)
    ensures |r| == |vs|
    ensures forall i :: 0 <= i < |vs| ==> r[i] == ToItem(vs[i])
  {
    seq(|vs|, i requires 0 <= i < |vs| => ToItem(vs[i]))
  }

  /** The fixed shuffle (`random.seed(42)` then `random.shuffle`) is some
      permutation the model does not compute: `shuffled` holds the same
      records as `vs`. */
  predicate IsShuffleOf(shuffled: seq<VideoRecord>, vs: seq<VideoRecord>) {
    multiset(shuffled) == multiset(vs)
  }

  /** GET /api/videos (get_videos) and GET /api/shorts (get_shorts): a page
      of the shuffled records of one kind; every item has that kind's type. */
  function GetKindPage(catalogue: seq<VideoRecord>, kind: Kind, shuffled: seq<VideoRecord>,
                       skip: int, limit: int): (r: seq<VideoItem>)
    requires IsShuffleOf(shuffled, OfKind(catalogue, kind))
    ensures r == Items(Page(shuffled, skip, limit))
    ensures forall it :: it in r ==> it.kind == KindName(kind)
  {
    var page := Page(shuffled, skip, limit);
    PageElements(shuffled, skip, limit);
    forall it | it in Items(page) ensures it.kind == KindName(kind) {
      var i :| 0 <= i < |page| && Items(page)[i] == it;
      assert page[i] in shuffled;
      assert page[i] in multiset(OfKind(catalogue, kind));
    }
    Items(page)
  }

  /** GET /api/videos/search (search_videos): the items of a page of the
      shuffled matching records; every item is that of a catalogued record
      matching the query. */
  function SearchVideos(catalogue: seq<VideoRecord>, query: string, shuffled: seq<VideoRecord>,
                        skip: int, limit: int): (r: seq<VideoItem>)
    requires IsShuffleOf(shuffled, SearchFilter(catalogue, query))
    ensures r == Items(Page(shuffled, skip, limit))
    ensures forall it :: it in r ==> exists v :: v in catalogue && Matches(v, query) && it == ToItem(v)
  {
    var page := Page(shuffled, skip, limit);
    PageElements(shuffled, skip, limit);
    forall it | it in Items(page) ensures exists v :: v in catalogue && Matches(v, query) && it == ToItem(v) {
      var i :| 0 <= i < |page| && Items(page)[i] == it;
      var v := page[i];
      assert v in shuffled;
      assert v in multiset(SearchFilter(catalogue, query));
      assert v in catalogue && Matches(v, query) && it == ToItem(v);
    }
    Items(page)
  }

  /** Paging through a kind's endpoint with skip = 0, limit, 2 * limit, ...
      over an unchanged catalogue returns each record of that kind exactly as
      often as the catalogue holds it. */
  lemma KindPagesReturnEveryRecord(catalogue: seq<VideoRecord>, kind: Kind,
                                   shuffled: seq<VideoRecord>, limit: nat)
    requires IsShuffleOf(shuffled, OfKind(catalogue, kind)) && limit > 0
    ensures multiset(Pages(shuffled, limit, PageCount(|shuffled|, limit)))
         == multiset(OfKind(catalogue, kind))
    ensures forall v ::
              multiset(Pages(shuffled, limit, PageCount(|shuffled|, limit)))[v]
              == if v.kind == kind then multiset(catalogue)[v] else 0
  {
    PagesCoverAll(shuffled, limit);
  }

  /** The same for the search endpoint: paging through it returns each
      matching record exactly as often as the catalogue holds it. */
  lemma SearchPagesReturnEveryMatch(catalogue: seq<VideoRecord>, query: string,
                                    shuffled: seq<VideoRecord>, limit: nat)
    requires IsShuffleOf(shuffled, SearchFilter(catalogue, query)) && limit > 0
    ensures forall v ::
              multiset(Pages(shuffled, limit, PageCount(|shuffled|, limit)))[v]
              == if Matches(v, query) then multiset(catalogue)[v] else 0
  {
    PagesCoverAll(shuffled, limit);
  }

  // ---------------------------------------------------------------------
  // Lookups

  datatype Response<T> = Ok(value: T) | HttpError(status: int, detail: string)

  /** The index of the first element satisfying `p`. */
  function FirstIndex<T>(s: seq<T>, p: T -> bool): (r: Option<nat>)
    ensures r.None? <==> forall i :: 0 <= i < |s| ==> !p(s[i])
    ensures r.Some? ==> r.value < |s| && p(s[r.value]) && forall i :: 0 <= i < r.value ==> !p(s[i])
  {
    if s == [] then None
    else if p(s[0]) then Some(0)
    else
      match FirstIndex(s[1..], p)
      case None => None
      case Some(i) => Some(i + 1)
  }

  /** GET /api/video-info/{id} (get_video_info): the first record with the
      id, or 404 "Video not found" when there is none. */
  function GetVideoInfo(catalogue: seq<VideoRecord>, id: string): (r: Response<VideoRecord>)
    ensures r.HttpError? <==> forall i :: 0 <= i < |catalogue| ==> catalogue[i].videoId != id
    ensures r.HttpError? ==> r == HttpError(404, "Video not found")
    ensures r.Ok? ==> exists i :: 0 <= i < |catalogue| && catalogue[i] == r.value && r.value.videoId == id &&
                        forall j :: 0 <= j < i ==> catalogue[j].videoId != id
  {
    match FirstIndex(catalogue, (v: VideoRecord) => v.videoId == id)
    case Some(i) => Ok(catalogue[i])
    case None => HttpError(404, "Video not found")
  }

  /** The path a record's file is served from. */
  function ServedPath(v: VideoRecord): string {
    PathJoin([VideosDir, v.filePath])
  }

  /** GET /api/video/{id} (get_video_file): the file of the first record with
      the id WHOSE FILE EXISTS (`existing` is the set of existing paths); a
      record with the id but no file is passed over. 404 when none remains. */
  function GetVideoFile(catalogue: seq<VideoRecord>, id: string, existing: set<string>): (r: Response<string>)
    ensures r.HttpError? <==>
      forall i :: 0 <= i < |catalogue| ==> !(catalogue[i].videoId == id && ServedPath(catalogue[i]) in existing)
    ensures r.HttpError? ==> r == HttpError(404, "Video not found")
    ensures r.Ok? ==> r.value in existing
    ensures r.Ok? ==> exists i :: (0 <= i < |catalogue| && catalogue[i].videoId == id &&
      ServedPath(catalogue[i]) == r.value &&
      forall j :: 0 <= j < i ==> !(catalogue[j].videoId == id && ServedPath(catalogue[j]) in existing))
  {
    match FirstIndex(catalogue, (v: VideoRecord) => v.videoId == id && ServedPath(v) in existing)
    case Some(i) => Ok(ServedPath(catalogue[i]))
    case None => HttpError(404, "Video not found")
  }
}
