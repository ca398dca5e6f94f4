/** The comments endpoint of the catalogue server (get_comments in
    backend.py): finds a video's comments folder, reads the top-level comment
    files in sorted name order, attaches to each the reply files of its
    replies folder, and normalises the like count of both. */
module CommentStore {

  import opened Wrappers
  import opened Text
  import Sorting
  import Catalogue

  /** The JSON values a comment file holds under a key. */
  datatype Value = Str(s: string) | Int(i: int) | Null | Other

  /** A JSON object. */
  type JsonObject = map<string, Value>

  /** What a file holds once opened and parsed: an object, an array, a
      string, another scalar (number, boolean, null), or nothing readable. */
  datatype FileContent = Json(obj: JsonObject) | Array(items: seq<Value>) | Text(text: string) | Scalar | Unreadable

  /** A reply as served: whatever JSON value its file held and survived the
      normalisation step. */
  datatype Reply = ObjectReply(obj: JsonObject) | ArrayReply(items: seq<Value>) | TextReply(text: string)

  /** A directory: `listing` is what os.listdir returns, in its order;
      `files` holds the content of each name that opens. */
  datatype Folder = Folder(listing: seq<string>, files: map<string, FileContent>)

  /** A video's comments folder: its top/ directory and its replies/
      directory with the sub-folders it holds (`None` when missing). */
  datatype CommentDir = CommentDir(top: Option<Folder>, replies: Option<map<string, Folder>>)

  /** A top-level comment as returned: its normalised fields and its
      normalised replies. */
  datatype LoadedComment = LoadedComment(fields: JsonObject, replies: seq<Reply>)

  datatype CommentsResponse = CommentsResponse(videoId: string, comments: seq<LoadedComment>)

  function ContentOf(f: Folder, name: string): FileContent {
    if name in f.files then f.files[name] else Unreadable
  }

  /** `sorted(os.listdir(...))`. */
  function SortedListing(f: Folder): seq<string> {
    Sorting.Sort(f.listing, StrLe)
  }

  /** Code-point order is a total order on names. */
  lemma NameOrder()
    ensures Sorting.IsTotalPreorder(StrLe) && Sorting.IsAntisymmetric(StrLe)
  {
    forall a: string, b: string ensures StrLe(a, b) || StrLe(b, a) {
      StrLeTotal(a, b);
    }
    forall a: string, b: string, c: string | StrLe(a, b) && StrLe(b, c) ensures StrLe(a, c) {
      StrLeTrans(a, b, c);
    }
    forall a: string, b: string | StrLe(a, b) && StrLe(b, a) ensures a == b {
      StrLeAntisym(a, b);
    }
  }

  /** The field normalisation: `like_count` is copied from `likes` only when
      it is absent; an existing `like_count` is never overwritten and no
      other key changes. */
  function Normalize(obj: JsonObject): (r: JsonObject)
    ensures "like_count" in obj ==> r == obj
    ensures "likes" !in obj ==> r == obj
    ensures "likes" in obj ==> "like_count" in r
    ensures "likes" in obj && "like_count" !in obj ==> r["like_count"] == obj["likes"]
    ensures forall k :: k != "like_count" ==> (k in r <==> k in obj)
    ensures forall k :: k != "like_count" && k in obj ==> r[k] == obj[k]
  {
    if "likes" in obj && "like_count" !in obj then obj["like_count" := obj["likes"]] else obj
  }

  /** The replies folder name derived from a top-level file name:
      "c_" + the text between the first '_' and the next '_' (or the end), cut
      at its first '.'. `None` when the name has no '_' (an IndexError the
      server swallows by skipping the comment). */
  function RepliesDirName(file: string): Option<string> {
    var parts := Split(file, '_');
    if |parts| < 2 then None else Some("c_" + Split(parts[1], '.')[0])
  }

  /** One reply file read. `in` is a key test on an object, a membership
      test on an array and a substring test on a string. When the guard
      `'likes' in reply and 'like_count' not in reply` holds on an array or
      string, the item assignment that follows fails; on any other scalar the
      test itself fails. Such files are skipped. */
  function LoadReply(f: Folder, name: string): Option<Reply> {
    if !EndsWith(name, ".json") then None
    else
      match ContentOf(f, name)
      case Json(obj) => Some(ObjectReply(Normalize(obj)))
      case Array(items) => if Str("likes") in items && Str("like_count") !in items then None else Some(ArrayReply(items))
      case Text(text) => if Contains(text, "likes") && !Contains(text, "like_count") then None else Some(TextReply(text))
      case Scalar => None
      case Unreadable => None
  }

  /** A reply file is kept exactly when it is a .json file that parses to an
      object, or to an array or string on which the normalisation guard is
      false; an object comes back normalised and anything else unchanged. */
  lemma LoadReplyKept(f: Folder, name: string)
    ensures LoadReply(f, name).Some? <==>
      EndsWith(name, ".json") &&
      (ContentOf(f, name).Json? ||
       (ContentOf(f, name).Array? && !(Str("likes") in ContentOf(f, name).items && Str("like_count") !in ContentOf(f, name).items)) ||
       (ContentOf(f, name).Text? && !(Contains(ContentOf(f, name).text, "likes") && !Contains(ContentOf(f, name).text, "like_count"))))
    ensures LoadReply(f, name).Some? && ContentOf(f, name).Json? ==>
      LoadReply(f, name).value == ObjectReply(Normalize(ContentOf(f, name).obj))
    ensures LoadReply(f, name).Some? && ContentOf(f, name).Array? ==>
      LoadReply(f, name).value == ArrayReply(ContentOf(f, name).items)
    ensures LoadReply(f, name).Some? && ContentOf(f, name).Text? ==>
      LoadReply(f, name).value == TextReply(ContentOf(f, name).text)
  {
  }

  function LoadReplies(f: Folder, names: seq<string>): seq<Reply> {
    if names == [] then []
    else LoadReplies(f, names[..|names| - 1]) + Catalogue.OptionSeq(LoadReply(f, Last(names)))
  }

  /** Every reply served comes from one of the folder's files; none is
      invented, and there are no more replies than files. */
  lemma {:induction false} LoadRepliesFromFiles(f: Folder, names: seq<string>)
    ensures |LoadReplies(f, names)| <= |names|
    ensures forall r :: r in LoadReplies(f, names) ==> exists i :: 0 <= i < |names| && LoadReply(f, names[i]) == Some(r)
    decreases |names|
  {
    if names != [] {
      var init, last := names[..|names| - 1], |names| - 1;
      var rs, extra := LoadReplies(f, init), Catalogue.OptionSeq(LoadReply(f, names[last]));
      assert LoadReplies(f, names) == rs + extra;
      LoadRepliesFromFiles(f, init);
      forall r | r in rs + extra
        ensures exists i :: 0 <= i < |names| && LoadReply(f, names[i]) == Some(r)
      {
        if r in rs {
          var i :| 0 <= i < |init| && LoadReply(f, init[i]) == Some(r);
          assert init[i] == names[i];
        } else {
          assert LoadReply(f, names[last]) == Some(r);
        }
      }
    }
  }

  /** When every file of the folder loads, no reply is dropped. */
  lemma {:induction false} LoadRepliesAll(f: Folder, names: seq<string>)
    requires forall i :: 0 <= i < |names| ==> LoadReply(f, names[i]).Some?
    ensures |LoadReplies(f, names)| == |names|
    decreases |names|
  {
    if names != [] {
      var init, last := names[..|names| - 1], |names| - 1;
      assert LoadReplies(f, names) == LoadReplies(f, init) + Catalogue.OptionSeq(LoadReply(f, names[last]));
      assert forall i :: 0 <= i < |init| ==> init[i] == names[i];
      LoadRepliesAll(f, init);
      assert LoadReply(f, names[last]).Some?;
    }
  }

  /** The replies of the comment in file `name`; `None` when computing the
      replies folder name fails. */
  function RepliesOf(dir: CommentDir, name: string): Option<seq<Reply>> {
    match dir.replies
    case None => Some([])
    case Some(sub) =>
      match RepliesDirName(name)
      case None => None
      case Some(d) => if d in sub then Some(LoadReplies(sub[d], SortedListing(sub[d]))) else Some([])
  }

  /** One top-level file read, if it is a .json file holding an object whose
      replies could be looked up. Any other parsed value fails at
      `comment.get('id')`, and is skipped. */
  function LoadTop(dir: CommentDir, f: Folder, name: string): Option<LoadedComment> {
    if !EndsWith(name, ".json") || !ContentOf(f, name).Json? then None
    else
      match RepliesOf(dir, name)
      case None => None
      case Some(rs) => Some(LoadedComment(Normalize(ContentOf(f, name).obj), rs))
  }

  function LoadAll(dir: CommentDir, f: Folder, names: seq<string>): seq<LoadedComment> {
    if names == [] then []
    else LoadAll(dir, f, names[..|names| - 1]) + Catalogue.OptionSeq(LoadTop(dir, f, Last(names)))
  }

  /** The comments of a comments folder, in sorted file-name order. */
  function CommentsOf(dir: CommentDir): seq<LoadedComment> {
    match dir.top
    case None => []
    case Some(f) => LoadAll(dir, f, SortedListing(f))
  }

  /** The files the comments come from: the sorted names that load. */
  function TopSources(dir: CommentDir, f: Folder, names: seq<string>): seq<string> {
    if names == [] then []
    else
      var kept := if LoadTop(dir, f, Last(names)).Some? then [Last(names)] else [];
      TopSources(dir, f, names[..|names| - 1]) + kept
  }

  /** The i-th comment returned is read from the i-th loading file; every
      such file is a .json file, and they come in the order they are listed. */
  lemma LoadAllSources(dir: CommentDir, f: Folder, names: seq<string>)
    ensures |LoadAll(dir, f, names)| == |TopSources(dir, f, names)|
    ensures forall i :: 0 <= i < |TopSources(dir, f, names)| ==>
      var name := TopSources(dir, f, names)[i];
      EndsWith(name, ".json") && ContentOf(f, name).Json? &&
      LoadTop(dir, f, name) == Some(LoadAll(dir, f, names)[i]) &&
      LoadAll(dir, f, names)[i].fields == Normalize(ContentOf(f, name).obj)
    ensures Subsequence(TopSources(dir, f, names), names)
  {
    LoadAllLength(dir, f, names);
    forall i | 0 <= i < |TopSources(dir, f, names)|
      ensures var name := TopSources(dir, f, names)[i];
        EndsWith(name, ".json") && ContentOf(f, name).Json? &&
        LoadTop(dir, f, name) == Some(LoadAll(dir, f, names)[i]) &&
        LoadAll(dir, f, names)[i].fields == Normalize(ContentOf(f, name).obj)
    {
      LoadAllSource(dir, f, names, i);
    }
    TopSourcesSubsequence(dir, f, names);
  }

  lemma {:induction false} LoadAllLength(dir: CommentDir, f: Folder, names: seq<string>)
    ensures |LoadAll(dir, f, names)| == |TopSources(dir, f, names)|
  {
    if names != [] {
      LoadAllLength(dir, f, names[..|names| - 1]);
    }
  }

  lemma {:induction false} LoadAllSource(dir: CommentDir, f: Folder, names: seq<string>, i: nat)
    requires i < |TopSources(dir, f, names)|
    ensures |LoadAll(dir, f, names)| == |TopSources(dir, f, names)|
    ensures LoadTop(dir, f, TopSources(dir, f, names)[i]) == Some(LoadAll(dir, f, names)[i])
  {
    var init := names[..|names| - 1];
    LoadAllLength(dir, f, names);
    LoadAllLength(dir, f, init);
    if i < |TopSources(dir, f, init)| {
      LoadAllSource(dir, f, init, i);
    }
  }

  lemma {:induction false} TopSourcesSubsequence(dir: CommentDir, f: Folder, names: seq<string>)
    ensures Subsequence(TopSources(dir, f, names), names)
  {
    if names != [] {
      TopSourcesSubsequence(dir, f, names[..|names| - 1]);
      SubsequenceAppend(TopSources(dir, f, names[..|names| - 1]), names[..|names| - 1], Last(names),
                        LoadTop(dir, f, Last(names)).Some?);
      assert names[..|names| - 1] + [Last(names)] == names;
    }
  }

  /** `a` is `b` with some elements left out, order kept. */
  predicate Subsequence(a: seq<string>, b: seq<string>) {
    a == [] || (b != [] && (if a[0] == b[0] then Subsequence(a[1..], b[1..]) else Subsequence(a, b[1..])))
  }

  lemma {:induction false} SubsequenceAppend(a: seq<string>, b: seq<string>, x: string, keep: bool)
    requires Subsequence(a, b)
    ensures Subsequence(a + (if keep then [x] else []), b + [x])
  {
    if a == [] {
      if keep {
        assert a + [x] == [x];
        SubsequenceOfEnd(b, x);
      }
    } else {
      assert b != [];
      assert (a + (if keep then [x] else []))[1..] == a[1..] + (if keep then [x] else []);
      assert (b + [x])[1..] == b[1..] + [x];
      if a[0] == b[0] {
        SubsequenceAppend(a[1..], b[1..], x, keep);
      } else {
        SubsequenceAppend(a, b[1..], x, keep);
      }
    }
  }

  lemma {:induction false} SubsequenceOfEnd(b: seq<string>, x: string)
    ensures Subsequence([x], b + [x])
  {
    if b != [] {
      assert (b + [x])[1..] == b[1..] + [x];
      SubsequenceOfEnd(b[1..], x);
    }
  }

  /** A subsequence of a sorted sequence is sorted. */
  lemma {:induction false} SubsequenceSorted(a: seq<string>, b: seq<string>)
    requires Subsequence(a, b) && Sorting.SortedBy(b, StrLe)
    ensures Sorting.SortedBy(a, StrLe) && forall x :: x in a ==> x in b
  {
    if a != [] {
      if a[0] == b[0] {
        SubsequenceSorted(a[1..], b[1..]);
        forall j | 0 < j < |a| ensures StrLe(a[0], a[j]) {
          assert a[j] in a[1..];
          var k :| 0 <= k < |b[1..]| && b[1..][k] == a[j];
          assert b[k + 1] == a[j];
        }
        forall i, j | 0 <= i < j < |a| ensures StrLe(a[i], a[j]) {
          if i > 0 {
            assert a[i] == a[1..][i - 1] && a[j] == a[1..][j - 1];
          }
        }
        forall x | x in a ensures x in b {
          if x != a[0] {
            assert x in a[1..];
            assert x in b[1..];
          }
        }
      } else {
        SubsequenceSorted(a, b[1..]);
        forall x | x in a ensures x in b {
          assert x in b[1..];
        }
      }
    }
  }

  /** The comments come back in sorted file-name order, each read from a
      .json file of top/, with its fields normalised. */
  lemma CommentsInNameOrder(dir: CommentDir)
    requires dir.top.Some?
    ensures var f := dir.top.value;
      var src := TopSources(dir, f, SortedListing(f));
      && |CommentsOf(dir)| == |src|
      && Sorting.SortedBy(src, StrLe)
      && (forall i :: 0 <= i < |src| ==>
            src[i] in f.listing && EndsWith(src[i], ".json") && ContentOf(f, src[i]).Json? &&
            CommentsOf(dir)[i].fields == Normalize(ContentOf(f, src[i]).obj))
  {
    var f := dir.top.value;
    var names := SortedListing(f);
    LoadAllSources(dir, f, names);
    SortedListingOrdered(f);
    SubsequenceSorted(TopSources(dir, f, names), names);
  }

  /** The sorted listing is in name order and lists only listed names. */
  lemma SortedListingOrdered(f: Folder)
    ensures Sorting.SortedBy(SortedListing(f), StrLe)
    ensures forall x :: x in SortedListing(f) ==> x in f.listing
  {
    var names := SortedListing(f);
    NameOrder();
    Sorting.SortSorted(f.listing, StrLe);
    forall x | x in names ensures x in f.listing {
      assert x in multiset(names);
    }
  }

  /** get_comments: the comments folder of the first catalogue record with
      the id, 404 "Comments not found" when no record has the id or its
      folder does not exist (`dirs` maps existing folder paths to their
      contents); otherwise the loaded comments. */
  method GetComments(catalogue: seq<Catalogue.VideoRecord>, videoId: string, dirs: map<string, CommentDir>)
    returns (r: Catalogue.Response<CommentsResponse>)
    ensures
      var first := Catalogue.FirstIndex(catalogue, (v: Catalogue.VideoRecord) => v.videoId == videoId);
      if first.None? || CommentsPath(catalogue[first.value]) !in dirs then
        r == Catalogue.HttpError(404, "Comments not found")
      else
        r == Catalogue.Ok(CommentsResponse(videoId, CommentsOf(dirs[CommentsPath(catalogue[first.value])])))
  {
    var commentsPath: Option<string> := None;
    var i := 0;
    while i < |catalogue|
      invariant 0 <= i <= |catalogue|
      invariant forall j :: 0 <= j < i ==> catalogue[j].videoId != videoId
      invariant commentsPath == None
    {
      if catalogue[i].videoId == videoId {
        commentsPath := Some(CommentsPath(catalogue[i]));
        break;
      }
      i := i + 1;
    }
    FirstMatch(catalogue, videoId, i);
    if commentsPath.None? || commentsPath.value !in dirs {
      return Catalogue.HttpError(404, "Comments not found");
    }
    var dir := dirs[commentsPath.value];
    var comments := LoadComments(dir);
    r := Catalogue.Ok(CommentsResponse(videoId, comments));
  }

  lemma FirstMatch(catalogue: seq<Catalogue.VideoRecord>, videoId: string, i: nat)
    requires i <= |catalogue|
    requires forall j :: 0 <= j < i ==> catalogue[j].videoId != videoId
    requires i < |catalogue| ==> catalogue[i].videoId == videoId
    ensures Catalogue.FirstIndex(catalogue, (v: Catalogue.VideoRecord) => v.videoId == videoId)
         == if i < |catalogue| then Some(i) else None
  {
    var first := Catalogue.FirstIndex(catalogue, (v: Catalogue.VideoRecord) => v.videoId == videoId);
    if first.Some? {
      assert first.value >= i;
    }
  }

  function CommentsPath(v: Catalogue.VideoRecord): string {
    Catalogue.PathJoin([Catalogue.VideosDir, v.commentsPath])
  }

  /** The loading loops of get_comments over one comments folder. */
  method LoadComments(dir: CommentDir) returns (comments: seq<LoadedComment>)
    ensures comments == CommentsOf(dir)
  {
    comments := [];
    if dir.top.None? {
      return;
    }
    var f := dir.top.value;
    var names := SortedListing(f);
    var i := 0;
    while i < |names|
      invariant 0 <= i <= |names|
      invariant comments == LoadAll(dir, f, names[..i])
    {
      LoadAllStep(dir, f, names, i);
      var comment := LoadTopFile(dir, f, names[i]);
      if comment.Some? {
        comments := comments + [comment.value];
      }
      i := i + 1;
    }
    WholePrefix(names);
  }

  lemma LoadAllStep(dir: CommentDir, f: Folder, names: seq<string>, i: nat)
    requires i < |names|
    ensures LoadAll(dir, f, names[..i + 1]) == LoadAll(dir, f, names[..i]) + Catalogue.OptionSeq(LoadTop(dir, f, names[i]))
  {
    PrefixStep(names, i);
  }

  /** One pass of the loop over top/: the comment read from file `name`. */
  method LoadTopFile(dir: CommentDir, f: Folder, name: string) returns (comment: Option<LoadedComment>)
    ensures comment == LoadTop(dir, f, name)
  {
    comment := None;
    if EndsWith(name, ".json") && ContentOf(f, name).Json? {
      var fields := Normalize(ContentOf(f, name).obj);
      var ok := true;
      var replies: seq<Reply> := [];
      if dir.replies.Some? {
        var d := RepliesDirName(name);
        if d.None? {
          ok := false;
        } else if d.value in dir.replies.value {
          replies := LoadReplyFolder(dir.replies.value[d.value]);
        }
      }
      if ok {
        comment := Some(LoadedComment(fields, replies));
      }
    }
  }

  /** The inner loop of get_comments over one replies folder. */
  method LoadReplyFolder(f: Folder) returns (replies: seq<Reply>)
    ensures replies == LoadReplies(f, SortedListing(f))
  {
    var names := SortedListing(f);
    replies := [];
    var i := 0;
    while i < |names|
      invariant 0 <= i <= |names|
      invariant replies == LoadReplies(f, names[..i])
    {
      PrefixStep(names, i);
      var reply := LoadReply(f, names[i]);
      if reply.Some? {
        replies := replies + [reply.value];
      }
      i := i + 1;
    }
    WholePrefix(names);
  }
}
