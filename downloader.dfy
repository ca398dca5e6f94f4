/** The downloader (yt.py): how fetched comments are split, ranked, capped
    and numbered into files; which old video files the retention rule
    removes; the short/video decision; and the per-channel download loop.
    The yt-dlp calls and the filesystem are given as values. */
module Downloader {

  import opened Wrappers
  import opened Text
  import Sorting
  import Catalogue

  /** At most this many top-level comments are saved per video. */
  const MaxComments: nat := 50

  /** At most this many replies are saved per top-level comment. */
  const MaxReplies: nat := 120

  // ---------------------------------------------------------------------
  // Fetched comments

  /** The `parent` key of a fetched comment: absent, null, or a string. */
  datatype Parent = NoParentKey | NullParent | ParentId(id: string)

  /** A comment as yt-dlp returns it; `None` is an absent key. */
  datatype RawComment = RawComment(
    id: Option<string>,
    parent: Parent,
    author: Option<string>,
    timestamp: Option<int>,
    text: Option<string>,
    likeCount: Option<int>)

  /** The comment a reply answers; `None` for a top-level comment, whose
      parent is absent (read as 'root'), null, or 'root'. */
  function ReplyParent(c: RawComment): (r: Option<string>)
    ensures r.None? <==> (c.parent.NoParentKey? || c.parent.NullParent? || c.parent == ParentId("root"))
    ensures r.Some? ==> c.parent == ParentId(r.value) && r.value != "root"
  {
    match c.parent
    case ParentId(p) => if p == "root" then None else Some(p)
    case _ => None
  }

  predicate IsTopLevel(c: RawComment) {
    ReplyParent(c).None?
  }

  /** The top-level comments, in input order. */
  function TopLevel(s: seq<RawComment>): seq<RawComment> {
    if s == [] then []
    else TopLevel(s[..|s| - 1]) + (if IsTopLevel(Last(s)) then [Last(s)] else [])
  }

  /** The replies to comment `p`, in input order. */
  function RepliesTo(s: seq<RawComment>, p: string): seq<RawComment> {
    if s == [] then []
    else RepliesTo(s[..|s| - 1], p) + (if ReplyParent(Last(s)) == Some(p) then [Last(s)] else [])
  }

  /** No comment is lost or duplicated by the split: each occurs in the
      top-level list, or in the reply list of its parent, as often as in the
      input, and the lists hold nothing else. */
  lemma PartitionLossless(s: seq<RawComment>)
    ensures forall c :: IsTopLevel(c) ==> multiset(TopLevel(s))[c] == multiset(s)[c]
    ensures forall c :: !IsTopLevel(c) ==> multiset(RepliesTo(s, ReplyParent(c).value))[c] == multiset(s)[c]
    ensures forall c :: c in TopLevel(s) ==> IsTopLevel(c)
    ensures forall p, c :: c in RepliesTo(s, p) ==> ReplyParent(c) == Some(p)
  {
    forall c | IsTopLevel(c) ensures multiset(TopLevel(s))[c] == multiset(s)[c] {
      TopLevelCount(s, c);
    }
    forall c | !IsTopLevel(c) ensures multiset(RepliesTo(s, ReplyParent(c).value))[c] == multiset(s)[c] {
      RepliesCount(s, ReplyParent(c).value, c);
    }
    forall c | c in TopLevel(s) ensures IsTopLevel(c) {
      TopLevelOnly(s, c);
    }
    forall p, c | c in RepliesTo(s, p) ensures ReplyParent(c) == Some(p) {
      RepliesOnly(s, p, c);
    }
  }

  lemma {:induction false} TopLevelCount(s: seq<RawComment>, c: RawComment)
    requires IsTopLevel(c)
    ensures multiset(TopLevel(s))[c] == multiset(s)[c]
  {
    if s != [] {
      var init := s[..|s| - 1];
      TopLevelCount(init, c);
      InitLast(s);
      assert multiset(s) == multiset(init) + multiset{Last(s)};
    }
  }

  lemma {:induction false} RepliesCount(s: seq<RawComment>, p: string, c: RawComment)
    requires ReplyParent(c) == Some(p)
    ensures multiset(RepliesTo(s, p))[c] == multiset(s)[c]
  {
    if s != [] {
      var init := s[..|s| - 1];
      RepliesCount(init, p, c);
      InitLast(s);
      assert multiset(s) == multiset(init) + multiset{Last(s)};
    }
  }

  lemma {:induction false} TopLevelOnly(s: seq<RawComment>, c: RawComment)
    requires c in TopLevel(s)
    ensures IsTopLevel(c)
  {
    var init := s[..|s| - 1];
    if c in TopLevel(init) {
      TopLevelOnly(init, c);
    }
  }

  lemma {:induction false} RepliesOnly(s: seq<RawComment>, p: string, c: RawComment)
    requires c in RepliesTo(s, p)
    ensures ReplyParent(c) == Some(p)
  {
    var init := s[..|s| - 1];
    if c in RepliesTo(init, p) {
      RepliesOnly(init, p, c);
    }
  }

  /** The split loop of download_comments: top-level comments into one list,
      replies into a dictionary keyed by parent, both in input order. */
  method Partition(comments: seq<RawComment>) returns (top: seq<RawComment>, groups: map<string, seq<RawComment>>)
    ensures top == TopLevel(comments)
    ensures GroupsOf(groups, comments)
  {
    top := [];
    groups := map[];
    var i := 0;
    while i < |comments|
      invariant 0 <= i <= |comments|
      invariant top == TopLevel(comments[..i])
      invariant GroupsOf(groups, comments[..i])
    {
      var c := comments[i];
      PrefixStep(comments, i);
      var parent := ReplyParent(c);
      if parent.None? {
        top := top + [c];
      } else {
        var p := parent.value;
        if p !in groups {
          groups := groups[p := []];
        }
        groups := groups[p := groups[p] + [c]];
      }
      i := i + 1;
    }
    WholePrefix(comments);
  }

  /** `groups` is the reply dictionary of `comments`: a key for each parent
      that has replies, holding exactly those replies. */
  ghost predicate GroupsOf(groups: map<string, seq<RawComment>>, comments: seq<RawComment>) {
    && (forall p :: p in groups <==> RepliesTo(comments, p) != [])
    && (forall p :: p in groups ==> groups[p] == RepliesTo(comments, p))
  }

  /** `replies_by_parent.get(comment.get('id'), [])`. */
  function Lookup(groups: map<string, seq<RawComment>>, id: Option<string>): seq<RawComment> {
    if id.Some? && id.value in groups then groups[id.value] else []
  }

  /** The replies of a comment with id `id`, as the dictionary lookup finds them. */
  function RepliesOf(comments: seq<RawComment>, id: Option<string>): seq<RawComment> {
    match id
    case None => []
    case Some(p) => RepliesTo(comments, p)
  }

  lemma LookupGroups(groups: map<string, seq<RawComment>>, comments: seq<RawComment>, id: Option<string>)
    requires GroupsOf(groups, comments)
    ensures Lookup(groups, id) == RepliesOf(comments, id)
  {
  }

  // ---------------------------------------------------------------------
  // Ranking and capping

  /** `x.get('like_count', 0)`. */
  function Likes(c: RawComment): int {
    c.likeCount.GetOr(0)
  }

  predicate LikesGe(a: RawComment, b: RawComment) {
    Likes(a) >= Likes(b)
  }

  /** `sort(key=like_count, reverse=True)`: most liked first, ties kept in
      input order. */
  function SortByLikes(s: seq<RawComment>): seq<RawComment> {
    Sorting.Sort(s, LikesGe)
  }

  /** `s[:n]`. */
  function Take<T>(s: seq<T>, n: nat): (r: seq<T>)
    ensures |r| == if |s| <= n then |s| else n
    ensures r <= s
  {
    if |s| <= n then s else s[..n]
  }

  /** The elements of `s` with `v` likes, in order. */
  function WithLikes(s: seq<RawComment>, v: int): seq<RawComment> {
    if s == [] then [] else (if Likes(s[0]) == v then [s[0]] else []) + WithLikes(s[1..], v)
  }

  lemma {:induction false} WithLikesAppend(a: seq<RawComment>, b: seq<RawComment>, v: int)
    ensures WithLikes(a + b, v) == WithLikes(a, v) + WithLikes(b, v)
  {
    if a != [] {
      var head := if Likes(a[0]) == v then [a[0]] else [];
      assert (a + b)[0] == a[0];
      assert (a + b)[1..] == a[1..] + b;
      WithLikesAppend(a[1..], b, v);
      assert WithLikes(a + b, v) == head + (WithLikes(a[1..], v) + WithLikes(b, v));
      assert head + (WithLikes(a[1..], v) + WithLikes(b, v)) == (head + WithLikes(a[1..], v)) + WithLikes(b, v);
    } else {
      assert a + b == b;
    }
  }

  lemma {:induction false} WithLikesNone(s: seq<RawComment>, v: int)
    requires forall i :: 0 <= i < |s| ==> Likes(s[i]) < v
    ensures WithLikes(s, v) == []
  {
    if s != [] {
      WithLikesNone(s[1..], v);
    }
  }

  lemma LikesOrder()
    ensures Sorting.IsTotalPreorder(LikesGe)
  {
  }

  lemma {:induction false} InsertStable(t: seq<RawComment>, x: RawComment, v: int)
    requires Sorting.SortedBy(t, LikesGe)
    ensures WithLikes(Sorting.Insert(t, x, LikesGe), v) == WithLikes(t, v) + WithLikes([x], v)
  {
    if t == [] {
    } else if !LikesGe(t[0], x) {
      InsertInFront(t, x, v);
    } else {
      Sorting.SortedTail(t, LikesGe);
      InsertStable(t[1..], x, v);
      InsertBehind(t, x, v);
    }
  }

  /** A comment placed in front of more liked ones keeps its order among
      those with its count, since none of them has its count. */
  lemma InsertInFront(t: seq<RawComment>, x: RawComment, v: int)
    requires t != [] && Sorting.SortedBy(t, LikesGe) && !LikesGe(t[0], x)
    ensures WithLikes(Sorting.Insert(t, x, LikesGe), v) == WithLikes(t, v) + WithLikes([x], v)
  {
    WithLikesAppend([x], t, v);
    if Likes(x) == v {
      WithLikesNone(t, v);
    }
  }

  lemma InsertBehind(t: seq<RawComment>, x: RawComment, v: int)
    requires t != [] && LikesGe(t[0], x)
    requires WithLikes(Sorting.Insert(t[1..], x, LikesGe), v) == WithLikes(t[1..], v) + WithLikes([x], v)
    ensures WithLikes(Sorting.Insert(t, x, LikesGe), v) == WithLikes(t, v) + WithLikes([x], v)
  {
    var rest := Sorting.Insert(t[1..], x, LikesGe);
    Sorting.InsertBehindHead(t, x, LikesGe);
    WithLikesAppend([t[0]], rest, v);
    HeadTail(t);
    WithLikesAppend([t[0]], t[1..], v);
    AppendAssoc(WithLikes([t[0]], v), WithLikes(t[1..], v), WithLikes([x], v));
  }

  /** The like sort is stable: for every like count, the comments with that
      count keep their input order. */
  lemma {:induction false} SortByLikesStable(s: seq<RawComment>, v: int)
    ensures WithLikes(SortByLikes(s), v) == WithLikes(s, v)
  {
    if s != [] {
      var init := s[..|s| - 1];
      SortByLikesStable(init, v);
      LikesOrder();
      Sorting.SortSorted(init, LikesGe);
      InsertStable(SortByLikes(init), Last(s), v);
      InitLast(s);
      WithLikesAppend(init, [Last(s)], v);
    }
  }

  /** The like sort is a permutation into non-increasing like order. */
  lemma SortByLikesOrdered(s: seq<RawComment>)
    ensures multiset(SortByLikes(s)) == multiset(s)
    ensures forall i, j :: 0 <= i < j < |SortByLikes(s)| ==> Likes(SortByLikes(s)[i]) >= Likes(SortByLikes(s)[j])
  {
    LikesOrder();
    Sorting.SortSorted(s, LikesGe);
  }

  /** The top-level comments that are saved: the 50 most liked. */
  function SelectTop(comments: seq<RawComment>): seq<RawComment> {
    Take(SortByLikes(TopLevel(comments)), MaxComments)
  }

  /** The replies saved for a comment: its first 120. */
  function SavedReplies(comments: seq<RawComment>, c: RawComment): seq<RawComment> {
    Take(RepliesOf(comments, c.id), MaxReplies)
  }

  // ---------------------------------------------------------------------
  // Comment files

  /** The dictionary written to a comment file. */
  datatype SavedComment = SavedComment(
    id: Option<string>,
    author: Option<string>,
    timestamp: Option<int>,
    text: Option<string>,
    likes: int)

  function Shape(c: RawComment): SavedComment {
    SavedComment(c.id, c.author, c.timestamp, c.text, Likes(c))
  }

  /** A file written under a video's comments folder: top/c_<n>.json, or
      replies/c_<n>/r_<j>.json. */
  datatype WrittenFile = TopFile(n: nat, data: SavedComment) | ReplyFile(n: nat, j: nat, data: SavedComment)

  /** `f"c_{n:05d}.json"`. */
  function TopFileName(n: nat): string {
    "c_" + ZeroPad(n, 5) + ".json"
  }

  /** `f"c_{n:05d}"`, the replies folder of comment `n`. */
  function RepliesFolderName(n: nat): string {
    "c_" + ZeroPad(n, 5)
  }

  /** `f"r_{j:05d}.json"`. */
  function ReplyFileName(j: nat): string {
    "r_" + ZeroPad(j, 5) + ".json"
  }

  /** Where a file is written, relative to the video's comments folder. */
  function PathOf(f: WrittenFile): string {
    match f
    case TopFile(n, _) => Catalogue.PathJoin(["top", TopFileName(n)])
    case ReplyFile(n, j, _) => Catalogue.PathJoin(["replies", RepliesFolderName(n), ReplyFileName(j)])
  }

  /** The files of the replies `rs` of comment `n`, numbered from 1. */
  function ReplyFiles(rs: seq<RawComment>, n: nat): (r: seq<WrittenFile>)
    ensures |r| == |rs|
  {
    if rs == [] then []
    else ReplyFiles(rs[..|rs| - 1], n) + [ReplyFile(n, |rs|, Shape(Last(rs)))]
  }

  /** Reply file `j + 1` carries the `j`-th reply. */
  lemma {:induction false} ReplyFilesIndex(rs: seq<RawComment>, n: nat)
    ensures forall j :: 0 <= j < |rs| ==> ReplyFiles(rs, n)[j] == ReplyFile(n, j + 1, Shape(rs[j]))
  {
    if rs != [] {
      ReplyFilesIndex(rs[..|rs| - 1], n);
    }
  }

  /** The files of one saved top-level comment numbered `n`, then its replies. */
  function CommentFiles(comments: seq<RawComment>, c: RawComment, n: nat): seq<WrittenFile> {
    [TopFile(n, Shape(c))] + ReplyFiles(SavedReplies(comments, c), n)
  }

  /** The files written for the saved comments `top`, numbered from `start + 1`. */
  function Plan(comments: seq<RawComment>, top: seq<RawComment>, start: nat): seq<WrittenFile> {
    if top == [] then []
    else Plan(comments, top[..|top| - 1], start) + CommentFiles(comments, Last(top), start + |top|)
  }

  /** The number of reply files written for `top`. */
  function ReplyTotal(comments: seq<RawComment>, top: seq<RawComment>): nat {
    if top == [] then 0
    else ReplyTotal(comments, top[..|top| - 1]) + |SavedReplies(comments, Last(top))|
  }

  function CountTop(files: seq<WrittenFile>): nat {
    if files == [] then 0 else CountTop(files[..|files| - 1]) + (if Last(files).TopFile? then 1 else 0)
  }

  function CountReplies(files: seq<WrittenFile>): nat {
    if files == [] then 0 else CountReplies(files[..|files| - 1]) + (if Last(files).ReplyFile? then 1 else 0)
  }

  lemma {:induction false} CountAppend(a: seq<WrittenFile>, b: seq<WrittenFile>)
    ensures CountTop(a + b) == CountTop(a) + CountTop(b)
    ensures CountReplies(a + b) == CountReplies(a) + CountReplies(b)
  {
    if b != [] {
      assert (a + b)[..|a + b| - 1] == a + b[..|b| - 1];
      assert Last(a + b) == Last(b);
      CountAppend(a, b[..|b| - 1]);
    } else {
      assert a + b == a;
    }
  }

  lemma {:induction false} ReplyFilesCount(rs: seq<RawComment>, n: nat)
    ensures CountTop(ReplyFiles(rs, n)) == 0 && CountReplies(ReplyFiles(rs, n)) == |rs|
  {
    if rs != [] {
      ReplyFilesCount(rs[..|rs| - 1], n);
      CountAppend(ReplyFiles(rs[..|rs| - 1], n), [ReplyFile(n, |rs|, Shape(Last(rs)))]);
    }
  }

  /** The plan writes one top file per saved comment and one reply file per
      saved reply. */
  lemma {:induction false} PlanCounts(comments: seq<RawComment>, top: seq<RawComment>, start: nat)
    ensures CountTop(Plan(comments, top, start)) == |top|
    ensures CountReplies(Plan(comments, top, start)) == ReplyTotal(comments, top)
  {
    if top != [] {
      var c := Last(top);
      PlanCounts(comments, top[..|top| - 1], start);
      PlanLast(comments, top, start);
      CommentFilesCount(comments, c, start + |top|);
      CountsOfAppend(Plan(comments, top, start), Plan(comments, top[..|top| - 1], start), CommentFiles(comments, c, start + |top|),
                     |top| - 1, ReplyTotal(comments, top[..|top| - 1]), |SavedReplies(comments, c)|);
    }
  }

  lemma CountsOfAppend(p: seq<WrittenFile>, rest: seq<WrittenFile>, block: seq<WrittenFile>, k: nat, r: nat, b: nat)
    requires p == rest + block
    requires CountTop(rest) == k && CountReplies(rest) == r
    requires CountTop(block) == 1 && CountReplies(block) == b
    ensures CountTop(p) == k + 1 && CountReplies(p) == r + b
  {
    CountAppend(rest, block);
  }

  lemma CommentFilesCount(comments: seq<RawComment>, c: RawComment, m: nat)
    ensures CountTop(CommentFiles(comments, c, m)) == 1
    ensures CountReplies(CommentFiles(comments, c, m)) == |SavedReplies(comments, c)|
  {
    var top := [TopFile(m, Shape(c))];
    ReplyFilesCount(SavedReplies(comments, c), m);
    CountAppend(top, ReplyFiles(SavedReplies(comments, c), m));
    assert CountTop(top) == 1 && CountReplies(top) == 0 by {
      assert top[..0] == [];
    }
  }

  /** The only top file among a comment's files is its own, numbered `m`. */
  lemma BlockTop(comments: seq<RawComment>, c: RawComment, m: nat, n: nat, d: SavedComment)
    ensures TopFile(n, d) in CommentFiles(comments, c, m) <==> n == m && d == Shape(c)
  {
    var replies := ReplyFiles(SavedReplies(comments, c), m);
    ReplyFilesIndex(SavedReplies(comments, c), m);
    assert CommentFiles(comments, c, m) == [TopFile(m, Shape(c))] + replies;
    assert TopFile(n, d) !in replies;
  }

  /** The reply files among a comment's files: file `j` under `m` for each
      of its first 120 replies. */
  lemma BlockReply(comments: seq<RawComment>, c: RawComment, m: nat, n: nat, j: nat, d: SavedComment)
    ensures ReplyFile(n, j, d) in CommentFiles(comments, c, m) <==>
      n == m && 0 < j <= |SavedReplies(comments, c)| && d == Shape(SavedReplies(comments, c)[j - 1])
  {
    var rs := SavedReplies(comments, c);
    var replies := ReplyFiles(rs, m);
    ReplyFilesIndex(rs, m);
    assert CommentFiles(comments, c, m) == [TopFile(m, Shape(c))] + replies;
    if n == m && 0 < j <= |rs| && d == Shape(rs[j - 1]) {
      assert replies[j - 1] == ReplyFile(n, j, d);
    }
  }

  lemma PlanLast(comments: seq<RawComment>, top: seq<RawComment>, start: nat)
    requires top != []
    ensures Plan(comments, top, start) == Plan(comments, top[..|top| - 1], start) + CommentFiles(comments, Last(top), start + |top|)
  {
  }

  /** The plan holds exactly one top file `n` for each saved comment,
      numbered consecutively from `start + 1` in ranking order. */
  lemma PlanTopFiles(comments: seq<RawComment>, top: seq<RawComment>, start: nat)
    ensures forall n: nat, d :: TopFile(n, d) in Plan(comments, top, start) <==>
      start < n <= start + |top| && d == Shape(top[n - start - 1])
  {
    forall n: nat, d
      ensures TopFile(n, d) in Plan(comments, top, start) <==> start < n <= start + |top| && d == Shape(top[n - start - 1])
    {
      PlanTopFile(comments, top, start, n, d);
    }
  }

  lemma {:induction false} PlanTopFile(comments: seq<RawComment>, top: seq<RawComment>, start: nat, n: nat, d: SavedComment)
    ensures TopFile(n, d) in Plan(comments, top, start) <==> start < n <= start + |top| && d == Shape(top[n - start - 1])
  {
    if top != [] {
      PlanTopFile(comments, top[..|top| - 1], start, n, d);
      PlanTopStep(comments, top, start, n, d);
    }
  }

  lemma PlanTopStep(comments: seq<RawComment>, top: seq<RawComment>, start: nat, n: nat, d: SavedComment)
    requires top != []
    requires var init := top[..|top| - 1];
      TopFile(n, d) in Plan(comments, init, start) <==> start < n <= start + |init| && d == Shape(init[n - start - 1])
    ensures TopFile(n, d) in Plan(comments, top, start) <==> start < n <= start + |top| && d == Shape(top[n - start - 1])
  {
    var init := top[..|top| - 1];
    BlockTop(comments, Last(top), start + |top|, n, d);
    PlanLast(comments, top, start);
    TopSnoc(Plan(comments, top, start), Plan(comments, init, start), CommentFiles(comments, Last(top), start + |top|),
            top, init, start, n, d);
  }

  /** One step of PlanTopFile: `p` is the plan of all but the last comment
      (`rest`) followed by the last comment's files (`block`). */
  lemma TopSnoc(p: seq<WrittenFile>, rest: seq<WrittenFile>, block: seq<WrittenFile>, top: seq<RawComment>, init: seq<RawComment>,
                start: nat, n: nat, d: SavedComment)
    requires top != [] && init == top[..|top| - 1] && p == rest + block
    requires TopFile(n, d) in rest <==> start < n <= start + |init| && d == Shape(init[n - start - 1])
    requires TopFile(n, d) in block <==> n == start + |top| && d == Shape(Last(top))
    ensures TopFile(n, d) in p <==> start < n <= start + |top| && d == Shape(top[n - start - 1])
  {
    InAppend(rest, block, TopFile(n, d));
    if start < n < start + |top| {
      PrefixIndex(top, |top| - 1, n - start - 1);
    }
  }

  /** One step of PlanReplyFile, as TopSnoc. */
  lemma ReplySnoc(p: seq<WrittenFile>, rest: seq<WrittenFile>, block: seq<WrittenFile>, top: seq<RawComment>, init: seq<RawComment>,
                  start: nat, n: nat, j: nat, d: SavedComment, comments: seq<RawComment>)
    requires top != [] && init == top[..|top| - 1] && p == rest + block
    requires ReplyFile(n, j, d) in rest <==>
      (start < n <= start + |init| &&
       0 < j <= |SavedReplies(comments, init[n - start - 1])| &&
       d == Shape(SavedReplies(comments, init[n - start - 1])[j - 1]))
    requires ReplyFile(n, j, d) in block <==>
      (n == start + |top| && 0 < j <= |SavedReplies(comments, Last(top))| && d == Shape(SavedReplies(comments, Last(top))[j - 1]))
    ensures ReplyFile(n, j, d) in p <==>
      (start < n <= start + |top| &&
       0 < j <= |SavedReplies(comments, top[n - start - 1])| &&
       d == Shape(SavedReplies(comments, top[n - start - 1])[j - 1]))
  {
    InAppend(rest, block, ReplyFile(n, j, d));
    if start < n < start + |top| {
      PrefixIndex(top, |top| - 1, n - start - 1);
    }
  }

  /** The plan holds exactly one reply file `j` under comment `n` for each of
      that comment's first 120 replies, numbered from 1. */
  lemma PlanReplyFiles(comments: seq<RawComment>, top: seq<RawComment>, start: nat)
    ensures forall n: nat, j: nat, d :: ReplyFile(n, j, d) in Plan(comments, top, start) <==>
      start < n <= start + |top| && 0 < j <= |SavedReplies(comments, top[n - start - 1])| &&
      d == Shape(SavedReplies(comments, top[n - start - 1])[j - 1])
  {
    forall n: nat, j: nat, d
      ensures ReplyFile(n, j, d) in Plan(comments, top, start) <==>
        start < n <= start + |top| && 0 < j <= |SavedReplies(comments, top[n - start - 1])| &&
        d == Shape(SavedReplies(comments, top[n - start - 1])[j - 1])
    {
      PlanReplyFile(comments, top, start, n, j, d);
    }
  }

  lemma {:induction false} PlanReplyFile(comments: seq<RawComment>, top: seq<RawComment>, start: nat, n: nat, j: nat, d: SavedComment)
    ensures ReplyFile(n, j, d) in Plan(comments, top, start) <==>
      start < n <= start + |top| && 0 < j <= |SavedReplies(comments, top[n - start - 1])| &&
      d == Shape(SavedReplies(comments, top[n - start - 1])[j - 1])
  {
    if top != [] {
      PlanReplyFile(comments, top[..|top| - 1], start, n, j, d);
      PlanReplyStep(comments, top, start, n, j, d);
    }
  }

  lemma PlanReplyStep(comments: seq<RawComment>, top: seq<RawComment>, start: nat, n: nat, j: nat, d: SavedComment)
    requires top != []
    requires var init := top[..|top| - 1];
      ReplyFile(n, j, d) in Plan(comments, init, start) <==>
        (start < n <= start + |init| && 0 < j <= |SavedReplies(comments, init[n - start - 1])| &&
         d == Shape(SavedReplies(comments, init[n - start - 1])[j - 1]))
    ensures ReplyFile(n, j, d) in Plan(comments, top, start) <==>
      (start < n <= start + |top| && 0 < j <= |SavedReplies(comments, top[n - start - 1])| &&
       d == Shape(SavedReplies(comments, top[n - start - 1])[j - 1]))
  {
    var init := top[..|top| - 1];
    BlockReply(comments, Last(top), start + |top|, n, j, d);
    PlanLast(comments, top, start);
    ReplySnoc(Plan(comments, top, start), Plan(comments, init, start), CommentFiles(comments, Last(top), start + |top|),
              top, init, start, n, j, d, comments);
  }

  /** Different files of the plan have different paths: the five-digit
      numbers are read back unchanged even past five digits. */
  lemma FileNamesDistinct(f: WrittenFile, g: WrittenFile)
    requires PathOf(f) == PathOf(g)
    ensures f.n == g.n && (f.ReplyFile? <==> g.ReplyFile?) && (f.ReplyFile? ==> f.j == g.j)
  {
    PathHead(f);
    PathHead(g);
    if f.TopFile? && g.TopFile? {
      TopPathsEqual(f.n, g.n);
    } else if f.ReplyFile? && g.ReplyFile? {
      ReplyPathsEqual(f.n, f.j, g.n, g.j);
    }
  }

  /** Top files live under "top", reply files under "replies". */
  lemma PathHead(f: WrittenFile)
    ensures PathOf(f) != [] && (PathOf(f)[0] == 't' <==> f.TopFile?)
  {
    if f.TopFile? {
      Catalogue.PathJoinTwo("top", TopFileName(f.n));
    } else {
      Catalogue.PathJoinThree("replies", RepliesFolderName(f.n), ReplyFileName(f.j));
    }
  }

  lemma TopPathsEqual(n: nat, m: nat)
    requires Catalogue.PathJoin(["top", TopFileName(n)]) == Catalogue.PathJoin(["top", TopFileName(m)])
    ensures n == m
  {
    TopPathForm(n);
    TopPathForm(m);
    ZeroPadsEqual("top/c_", n, m, ".json");
  }

  lemma TopPathForm(n: nat)
    ensures Catalogue.PathJoin(["top", TopFileName(n)]) == "top/c_" + ZeroPad(n, 5) + ".json"
  {
    Catalogue.PathJoinTwo("top", TopFileName(n));
  }

  lemma ReplyPathsEqual(n: nat, j: nat, m: nat, k: nat)
    requires Catalogue.PathJoin(["replies", RepliesFolderName(n), ReplyFileName(j)]) ==
             Catalogue.PathJoin(["replies", RepliesFolderName(m), ReplyFileName(k)])
    ensures n == m && j == k
  {
    ReplyPathForm(n, j);
    ReplyPathForm(m, k);
    ZeroPadValue(n, 5);
    ZeroPadValue(m, 5);
    DigitsBeforeSlash("replies/c_", ZeroPad(n, 5), "/r_" + ZeroPad(j, 5) + ".json",
                      ZeroPad(m, 5), "/r_" + ZeroPad(k, 5) + ".json");
    ZeroPadsEqual("/r_", j, k, ".json");
  }

  lemma ReplyPathForm(n: nat, j: nat)
    ensures Catalogue.PathJoin(["replies", RepliesFolderName(n), ReplyFileName(j)]) ==
            "replies/c_" + ZeroPad(n, 5) + ("/r_" + ZeroPad(j, 5) + ".json")
  {
    Catalogue.PathJoinThree("replies", RepliesFolderName(n), ReplyFileName(j));
  }

  /** A run of digits that a '/' follows is recovered from the string. */
  lemma DigitsBeforeSlash(p: string, a: string, r1: string, b: string, r2: string)
    requires AllDigits(a) && AllDigits(b)
    requires r1 != [] && r1[0] == '/' && r2 != [] && r2[0] == '/'
    requires p + a + r1 == p + b + r2
    ensures a == b && r1 == r2
  {
    var s := p + a + r1;
    assert a == s[|p|..|p| + |a|];
    assert b == (p + b + r2)[|p|..|p| + |b|];
    assert r1 == s[|p| + |a|..];
    assert r2 == (p + b + r2)[|p| + |b|..];
  }

  /** Two names with the same prefix and suffix around zero-padded numbers
      are equal only for equal numbers. */
  lemma ZeroPadsEqual(pre: string, n: nat, m: nat, suf: string)
    requires pre + ZeroPad(n, 5) + suf == pre + ZeroPad(m, 5) + suf
    ensures n == m
  {
    var a := ZeroPad(n, 5);
    var b := ZeroPad(m, 5);
    assert |a| == |b|;
    assert a == (pre + a + suf)[|pre|..|pre| + |a|];
    assert b == (pre + b + suf)[|pre|..|pre| + |b|];
    ZeroPadValue(n, 5);
    ZeroPadValue(m, 5);
  }

  /** The digits after `p` run up to the first '/'. */
  lemma FirstSlash(p: string, a: string, rest: string)
    requires AllDigits(a) && rest != [] && rest[0] == '/'
    ensures (p + a + rest)[|p| + |a|] == '/'
    ensures forall i :: |p| <= i < |p| + |a| ==> (p + a + rest)[i] != '/'
  {
    forall i | |p| <= i < |p| + |a| ensures (p + a + rest)[i] != '/' {
      assert (p + a + rest)[i] == a[i - |p|];
    }
  }

  // ---------------------------------------------------------------------
  // The comment download

  /** The keys of index.json the downloader counts with. */
  datatype CommentIndex = CommentIndex(topDownloaded: nat, repliesDownloaded: nat, hasMore: bool)

  /** The index used when index.json is missing or unreadable. */
  const DefaultIndex := CommentIndex(0, 0, true)

  /** What the comments fetch produced: nothing after every retry failed, or
      the list of comments. */
  datatype Fetch = FetchFailed | Fetched(comments: seq<RawComment>)

  /** The end state of download_comments for one video. */
  datatype CommentsOutcome =
    | CommentsExist
    | GaveUp
    | NoComments(index: CommentIndex)
    | Saved(files: seq<WrittenFile>, index: CommentIndex)

  /** download_comments: skip when top/ holds any entry; otherwise, from the
      stored (or default) index, save the 50 most liked top-level comments
      with their first 120 replies each, numbering on from the stored count. */
  function CommentsResult(topListing: Option<seq<string>>, stored: Option<CommentIndex>, fetch: Fetch): CommentsOutcome {
    if topListing.Some? && |topListing.value| > 0 then CommentsExist
    else
      var index := stored.GetOr(DefaultIndex);
      match fetch
      case FetchFailed => GaveUp
      case Fetched(cs) =>
        if cs == [] then NoComments(index)
        else
          var top := SelectTop(cs);
          Saved(Plan(cs, top, index.topDownloaded),
                CommentIndex(index.topDownloaded + |top|, index.repliesDownloaded + ReplyTotal(cs, top),
                             |top| >= MaxComments))
  }

  /** After a save, both counters have grown by exactly the number of files
      of their kind written, and has_more_comments holds iff at least 50
      top-level comments were fetched. */
  lemma SavedCounters(topListing: Option<seq<string>>, stored: Option<CommentIndex>, fetch: Fetch)
    requires CommentsResult(topListing, stored, fetch).Saved?
    ensures var before := stored.GetOr(DefaultIndex);
      var out := CommentsResult(topListing, stored, fetch);
      && out.index.topDownloaded == before.topDownloaded + CountTop(out.files)
      && out.index.repliesDownloaded == before.repliesDownloaded + CountReplies(out.files)
      && (out.index.hasMore <==> |TopLevel(fetch.comments)| >= MaxComments)
      && CountTop(out.files) <= MaxComments
  {
    var before := stored.GetOr(DefaultIndex);
    PlanCounts(fetch.comments, SelectTop(fetch.comments), before.topDownloaded);
    SortByLikesOrdered(TopLevel(fetch.comments));
    assert |SortByLikes(TopLevel(fetch.comments))| == |TopLevel(fetch.comments)| by {
      assert |multiset(SortByLikes(TopLevel(fetch.comments)))| == |multiset(TopLevel(fetch.comments))|;
    }
  }

  /** The saved top-level comments are the most liked: a fetched top-level
      comment left out has no more likes than any one saved, and the saved
      ones come in non-increasing like order. */
  lemma SelectTopMostLiked(comments: seq<RawComment>)
    ensures var top := SelectTop(comments);
      && (forall i, j :: 0 <= i < j < |top| ==> Likes(top[i]) >= Likes(top[j]))
      && (forall c :: c in top ==> c in TopLevel(comments))
      && (|TopLevel(comments)| > MaxComments ==> |top| == MaxComments)
      && (forall c, i :: (c in TopLevel(comments) && multiset(top)[c] < multiset(TopLevel(comments))[c] &&
            0 <= i < |top|) ==> Likes(c) <= Likes(top[i]))
  {
    SelectTopOrdered(comments);
    SelectTopLeftOut(comments);
  }

  lemma SelectTopOrdered(comments: seq<RawComment>)
    ensures var top := SelectTop(comments);
      && (forall i, j :: 0 <= i < j < |top| ==> Likes(top[i]) >= Likes(top[j]))
      && (forall c :: c in top ==> c in TopLevel(comments))
      && (|TopLevel(comments)| > MaxComments ==> |top| == MaxComments)
  {
    var all := TopLevel(comments);
    var sorted := SortByLikes(all);
    var top := SelectTop(comments);
    SortByLikesOrdered(all);
    assert |sorted| == |all| by {
      assert |multiset(sorted)| == |multiset(all)|;
    }
    forall c | c in top ensures c in all {
      assert c in sorted;
      assert c in multiset(sorted);
    }
  }

  lemma SelectTopLeftOut(comments: seq<RawComment>)
    ensures var top := SelectTop(comments);
      forall c, i :: (c in TopLevel(comments) && multiset(top)[c] < multiset(TopLevel(comments))[c] &&
            0 <= i < |top|) ==> Likes(c) <= Likes(top[i])
  {
    var all := TopLevel(comments);
    var sorted := SortByLikes(all);
    var top := SelectTop(comments);
    SortByLikesOrdered(all);
    forall c, i | c in all && multiset(top)[c] < multiset(all)[c] && 0 <= i < |top|
      ensures Likes(c) <= Likes(top[i])
    {
      LeftOutBelow(sorted, c, i);
    }
  }

  /** A comment cut off by the cap has no more likes than any kept one. */
  lemma LeftOutBelow(sorted: seq<RawComment>, c: RawComment, i: nat)
    requires forall a, b :: 0 <= a < b < |sorted| ==> Likes(sorted[a]) >= Likes(sorted[b])
    requires multiset(Take(sorted, MaxComments))[c] < multiset(sorted)[c] && i < |Take(sorted, MaxComments)|
    ensures Likes(c) <= Likes(Take(sorted, MaxComments)[i])
  {
    var top := Take(sorted, MaxComments);
    if |sorted| > MaxComments {
      var rest := sorted[MaxComments..];
      assert sorted == top + rest;
      assert multiset(sorted) == multiset(top) + multiset(rest);
      assert c in multiset(rest);
      var k :| 0 <= k < |rest| && rest[k] == c;
      assert sorted[MaxComments + k] == c;
      assert top[i] == sorted[i];
    }
  }

  lemma PlanStep(comments: seq<RawComment>, top: seq<RawComment>, i: nat, start: nat)
    requires i < |top|
    ensures Plan(comments, top[..i + 1], start) == Plan(comments, top[..i], start) + CommentFiles(comments, top[i], start + i + 1)
  {
    PrefixStep(top, i);
    PlanLast(comments, top[..i + 1], start);
  }

  lemma ReplyTotalStep(comments: seq<RawComment>, top: seq<RawComment>, i: nat)
    requires i < |top|
    ensures ReplyTotal(comments, top[..i + 1]) == ReplyTotal(comments, top[..i]) + |SavedReplies(comments, top[i])|
  {
    PrefixStep(top, i);
  }

  lemma ReplyFilesStep(rs: seq<RawComment>, j: nat, n: nat)
    requires j < |rs|
    ensures ReplyFiles(rs[..j + 1], n) == ReplyFiles(rs[..j], n) + [ReplyFile(n, j + 1, Shape(rs[j]))]
  {
    PrefixStep(rs, j);
  }

  /** Saving comment `i` of `top` with its reply files `written` extends the
      plan and the reply count of the first `i` comments. */
  lemma SaveStep(comments: seq<RawComment>, top: seq<RawComment>, i: nat, start: nat, written: seq<WrittenFile>)
    requires i < |top| && written == ReplyFiles(SavedReplies(comments, top[i]), start + i + 1)
    ensures Plan(comments, top[..i + 1], start) == Plan(comments, top[..i], start) + [TopFile(start + i + 1, Shape(top[i]))] + written
    ensures ReplyTotal(comments, top[..i + 1]) == ReplyTotal(comments, top[..i]) + |written|
  {
    PlanStep(comments, top, i, start);
    ReplyTotalStep(comments, top, i);
  }

  /** The saving loops of download_comments: counters advanced per file. */
  method SaveComments(ghost comments: seq<RawComment>, top: seq<RawComment>, groups: map<string, seq<RawComment>>,
                      start: nat, repliesStart: nat)
    returns (files: seq<WrittenFile>, commentIndex: nat, repliesDownloaded: nat)
    requires GroupsOf(groups, comments)
    ensures files == Plan(comments, top, start)
    ensures commentIndex == start + |top|
    ensures repliesDownloaded == repliesStart + ReplyTotal(comments, top)
  {
    files := [];
    commentIndex := start;
    repliesDownloaded := repliesStart;
    var i := 0;
    while i < |top|
      invariant 0 <= i <= |top|
      invariant files == Plan(comments, top[..i], start)
      invariant commentIndex == start + i
      invariant repliesDownloaded == repliesStart + ReplyTotal(comments, top[..i])
    {
      var comment := top[i];
      var n := commentIndex + 1;
      var written := SaveCommentReplies(comments, comment, groups, n);
      SaveStep(comments, top, i, start, written);
      files := files + [TopFile(n, Shape(comment))] + written;
      repliesDownloaded := repliesDownloaded + |written|;
      commentIndex := commentIndex + 1;
      i := i + 1;
    }
    WholePrefix(top);
  }

  /** The replies saved under comment `n`: its first 120, looked up in the
      grouping. */
  method SaveCommentReplies(ghost comments: seq<RawComment>, comment: RawComment, groups: map<string, seq<RawComment>>, n: nat)
    returns (written: seq<WrittenFile>)
    requires GroupsOf(groups, comments)
    ensures written == ReplyFiles(SavedReplies(comments, comment), n)
  {
    LookupGroups(groups, comments, comment.id);
    var replies := Take(Lookup(groups, comment.id), MaxReplies);
    written := SaveReplies(replies, n);
  }

  /** The reply loop of download_comments for comment `n`; the counter
      advances once per file. */
  method SaveReplies(replies: seq<RawComment>, n: nat) returns (written: seq<WrittenFile>)
    ensures written == ReplyFiles(replies, n)
  {
    written := [];
    var j := 0;
    while j < |replies|
      invariant 0 <= j <= |replies|
      invariant written == ReplyFiles(replies[..j], n)
    {
      ReplyFilesStep(replies, j, n);
      written := written + [ReplyFile(n, j + 1, Shape(replies[j]))];
      j := j + 1;
    }
    WholePrefix(replies);
  }

  /** download_comments with the fetch and the stored index given. */
  method DownloadComments(topListing: Option<seq<string>>, stored: Option<CommentIndex>, fetch: Fetch)
    returns (outcome: CommentsOutcome)
    ensures outcome == CommentsResult(topListing, stored, fetch)
  {
    if topListing.Some? && |topListing.value| > 0 {
      outcome := CommentsExist;
    } else if fetch.FetchFailed? {
      outcome := GaveUp;
    } else if fetch.comments == [] {
      outcome := NoComments(stored.GetOr(DefaultIndex));
    } else {
      outcome := SaveFetched(fetch.comments, stored.GetOr(DefaultIndex));
    }
  }

  /** The split, rank, cap and save steps of download_comments for a
      non-empty fetch, numbering on from `index`. */
  method SaveFetched(comments: seq<RawComment>, index: CommentIndex) returns (outcome: CommentsOutcome)
    ensures var top := SelectTop(comments);
      outcome == Saved(Plan(comments, top, index.topDownloaded),
                       CommentIndex(index.topDownloaded + |top|, index.repliesDownloaded + ReplyTotal(comments, top),
                                    |top| >= MaxComments))
  {
    var top, groups := Partition(comments);
    top := SortByLikes(top);
    top := Take(top, MaxComments);
    var files, commentIndex, repliesDownloaded :=
      SaveComments(comments, top, groups, index.topDownloaded, index.repliesDownloaded);
    outcome := Saved(files, CommentIndex(commentIndex, repliesDownloaded, |top| >= MaxComments));
  }

  // ---------------------------------------------------------------------
  // Retention

  /** A directory entry with its modification time. */
  datatype FileStat = FileStat(name: string, mtime: int, isFile: bool)

  /** An `(mtime, path)` pair of cleanup's list. */
  datatype Stamped = Stamped(mtime: int, path: string)

  /** Python's order on `(mtime, path)` tuples. */
  predicate StampLe(a: Stamped, b: Stamped) {
    a.mtime < b.mtime || (a.mtime == b.mtime && StrLe(a.path, b.path))
  }

  lemma StampOrder()
    ensures Sorting.IsTotalPreorder(StampLe) && Sorting.IsAntisymmetric(StampLe)
  {
    forall a: Stamped, b: Stamped ensures StampLe(a, b) || StampLe(b, a) {
      StrLeTotal(a.path, b.path);
    }
    forall a: Stamped, b: Stamped, c: Stamped | StampLe(a, b) && StampLe(b, c) ensures StampLe(a, c) {
      if a.mtime == b.mtime == c.mtime {
        StrLeTrans(a.path, b.path, c.path);
      }
    }
    forall a: Stamped, b: Stamped | StampLe(a, b) && StampLe(b, a) ensures a == b {
      StrLeAntisym(a.path, b.path);
    }
  }

  /** The glob of a folder keeps entries whose name does not start with '.';
      `os.path.isfile` then keeps the files. */
  predicate Globbed(f: FileStat) {
    f.isFile && !(|f.name| > 0 && f.name[0] == '.')
  }

  /** The files of one folder as `(mtime, path)` pairs, in listing order. */
  function Stamps(dir: string, listing: seq<FileStat>): seq<Stamped> {
    if listing == [] then []
    else
      var f := Last(listing);
      Stamps(dir, listing[..|listing| - 1]) + (if Globbed(f) then [Stamped(f.mtime, dir + "/" + f.name)] else [])
  }

  function PathsOf(s: seq<Stamped>): (r: seq<string>)
    ensures |r| == |s| && forall i :: 0 <= i < |s| ==> r[i] == s[i].path
  {
    if s == [] then [] else PathsOf(s[..|s| - 1]) + [Last(s).path]
  }

  /** What cleanup does: the paths it removes, oldest first, and whether it
      ends with an escaping IndexError (a negative video_count makes it index
      past the end; the error handler indexes again). */
  datatype CleanupResult = CleanupResult(removed: seq<string>, aborted: bool)

  /** All files of both folders, oldest first (ties by path). */
  function SortedStamps(videosDir: string, videos: seq<FileStat>, shortsDir: string, shorts: seq<FileStat>): seq<Stamped> {
    Sorting.Sort(Stamps(videosDir, videos) + Stamps(shortsDir, shorts), StampLe)
  }

  function CleanupOf(videosDir: string, videos: seq<FileStat>, shortsDir: string, shorts: seq<FileStat>,
                     videoCount: int): CleanupResult {
    var all := SortedStamps(videosDir, videos, shortsDir, shorts);
    if |all| > videoCount then
      var toRemove := |all| - videoCount;
      CleanupResult(PathsOf(all[..Catalogue.Min(toRemove, |all|)]), toRemove > |all|)
    else CleanupResult([], false)
  }

  /** With a count of at least 0, cleanup removes exactly the oldest
      total - video_count files when there are more than video_count, and
      nothing otherwise; every removed file is older than (or, at equal mtime,
      sorts before) every kept file, and video_count files remain. */
  lemma CleanupKeepsNewest(videosDir: string, videos: seq<FileStat>, shortsDir: string, shorts: seq<FileStat>,
                           videoCount: nat)
    ensures var all := SortedStamps(videosDir, videos, shortsDir, shorts);
      var out := CleanupOf(videosDir, videos, shortsDir, shorts, videoCount);
      && !out.aborted
      && |out.removed| == Catalogue.Max(0, |all| - videoCount)
      && |all| - |out.removed| == Catalogue.Min(|all|, videoCount)
      && (forall i :: 0 <= i < |out.removed| ==> out.removed[i] == all[i].path)
      && (forall i, j :: 0 <= i < |out.removed| <= j < |all| ==> StampLe(all[i], all[j]) && all[i].mtime <= all[j].mtime)
  {
    StampOrder();
    Sorting.SortSorted(Stamps(videosDir, videos) + Stamps(shortsDir, shorts), StampLe);
  }

  /** A negative count removes every file, then the error escapes. */
  lemma CleanupNegativeCount(videosDir: string, videos: seq<FileStat>, shortsDir: string, shorts: seq<FileStat>,
                             videoCount: int)
    requires videoCount < 0
    ensures CleanupOf(videosDir, videos, shortsDir, shorts, videoCount) ==
      CleanupResult(PathsOf(SortedStamps(videosDir, videos, shortsDir, shorts)), true)
  {
    var all := SortedStamps(videosDir, videos, shortsDir, shorts);
    assert all[..|all|] == all;
  }

  /** The files of one folder, as the glob loop collects them. */
  method Glob(dir: string, listing: seq<FileStat>) returns (found: seq<Stamped>)
    ensures found == Stamps(dir, listing)
  {
    found := [];
    var i := 0;
    while i < |listing|
      invariant 0 <= i <= |listing|
      invariant found == Stamps(dir, listing[..i])
    {
      PrefixStep(listing, i);
      var f := listing[i];
      if Globbed(f) {
        found := found + [Stamped(f.mtime, dir + "/" + f.name)];
      }
      i := i + 1;
    }
    WholePrefix(listing);
  }

  /** cleanup_old_videos: collect, sort, and remove the oldest files. */
  method CleanupOldVideos(videosDir: string, videos: seq<FileStat>, shortsDir: string, shorts: seq<FileStat>,
                          videoCount: int)
    returns (removed: seq<string>, aborted: bool)
    ensures CleanupResult(removed, aborted) == CleanupOf(videosDir, videos, shortsDir, shorts, videoCount)
  {
    var fromVideos := Glob(videosDir, videos);
    var fromShorts := Glob(shortsDir, shorts);
    var allFiles := Sorting.Sort(fromVideos + fromShorts, StampLe);
    removed := [];
    aborted := false;
    var total := |allFiles|;
    if total > videoCount {
      var filesToRemove := total - videoCount;
      var i := 0;
      while i < filesToRemove
        invariant 0 <= i <= filesToRemove && i <= total
        invariant removed == PathsOf(allFiles[..i])
        invariant !aborted
      {
        if i >= total {
          aborted := true;
          break;
        }
        PrefixStep(allFiles, i);
        removed := removed + [allFiles[i].path];
        i := i + 1;
      }
      assert i == Catalogue.Min(filesToRemove, total);
    }
  }

  // ---------------------------------------------------------------------
  // The download loop

  /** `w and h and h > w`: a short is taller than wide; width and height
      must both be present and non-zero. */
  predicate IsShort(width: Option<int>, height: Option<int>) {
    Truthy(width) && Truthy(height) && height.value > width.value
  }

  predicate Truthy(x: Option<int>) {
    x.Some? && x.value != 0
  }

  lemma IsShortIff(width: Option<int>, height: Option<int>)
    ensures IsShort(width, height) <==>
      (width.Some? && height.Some? && width.value != 0 && height.value != 0 && height.value > width.value)
  {
  }

  /** The details yt-dlp reports for one playlist entry. */
  datatype VideoInfo = VideoInfo(title: string, id: string, width: Option<int>, height: Option<int>, live: bool)

  /** The first existing output file `title [id]<ext>` after the download,
      with its size. */
  datatype OutputFile = OutputFile(ext: string, size: nat)

  /** One playlist entry: missing, failing with an error, or its info with
      the output file the download left (if any). */
  datatype Entry = Missing | Errored | Info(info: VideoInfo, output: Option<OutputFile>)

  /** A video the loop counts as downloaded. */
  datatype Download = Download(kind: Catalogue.Kind, fileName: string, videoId: string)

  /** The output template `%(title)s [%(id)s]`, without the extension. */
  function OutputBase(info: VideoInfo): string {
    info.title + " [" + info.id + "]"
  }

  /** The names get_downloaded_videos keys its dictionary by: the base names
      of the files of both folders. */
  function DownloadedNames(videos: seq<FileStat>, shorts: seq<FileStat>): set<string> {
    set f | f in videos + shorts && Globbed(f) :: Catalogue.SplitExtRoot(f.name)
  }

  /** The skip check as written: the bare title against the base names. */
  predicate AlreadyDownloadedAsWritten(downloaded: set<string>, info: VideoInfo) {
    info.title in downloaded
  }

  /** The skip check as intended: the base name the template writes. */
  predicate AlreadyDownloaded(downloaded: set<string>, info: VideoInfo) {
    OutputBase(info) in downloaded
  }

  /** A video downloaded through the template is not recognised by the check
      as written: its folder holds "title [id].ext", whose base name is never
      the bare title. */
  lemma AsWrittenMissesOwnFile(info: VideoInfo, ext: string, mtime: int)
    requires '.' !in ext && !(|OutputBase(info)| > 0 && OutputBase(info)[0] == '.')
    ensures var file := FileStat(OutputBase(info) + "." + ext, mtime, true);
      !AlreadyDownloadedAsWritten(DownloadedNames([file], []), info)
  {
    var file := FileStat(OutputBase(info) + "." + ext, mtime, true);
    var base := OutputBase(info);
    assert base[|info.title| + |info.id| + 2] == ']';
    Catalogue.SplitExtAppend(base, ext);
    assert [file] + [] == [file];
    assert DownloadedNames([file], []) == {base};
    assert |base| > |info.title|;
  }

  /** The corrected check recognises that file. */
  lemma CorrectedFindsOwnFile(info: VideoInfo, ext: string, mtime: int)
    requires '.' !in ext && !(|OutputBase(info)| > 0 && OutputBase(info)[0] == '.')
    ensures var file := FileStat(OutputBase(info) + "." + ext, mtime, true);
      AlreadyDownloaded(DownloadedNames([file], []), info)
  {
    var file := FileStat(OutputBase(info) + "." + ext, mtime, true);
    var base := OutputBase(info);
    assert base[|info.title| + |info.id| + 2] == ']';
    Catalogue.SplitExtAppend(base, ext);
    assert [file] + [] == [file];
    assert DownloadedNames([file], []) == {base};
  }

  /** Which already-downloaded test the loop applies: the one yt.py:370
      writes (the bare title) or the intended one (the template's base name). */
  datatype SkipTest = AsWritten | Corrected

  predicate Skips(test: SkipTest, downloaded: set<string>, info: VideoInfo) {
    match test
    case AsWritten => AlreadyDownloadedAsWritten(downloaded, info)
    case Corrected => AlreadyDownloaded(downloaded, info)
  }

  /** What processing one entry yields: a download, or nothing (missing,
      error, already downloaded, live, no output file, or an empty file). */
  function Process(test: SkipTest, downloaded: set<string>, e: Entry): Option<Download> {
    match e
    case Missing => None
    case Errored => None
    case Info(info, output) =>
      if Skips(test, downloaded, info) || info.live then None
      else
        match output
        case None => None
        case Some(out) =>
          if out.size == 0 then None
          else
            var kind := if IsShort(info.width, info.height) then Catalogue.Shorts else Catalogue.Video;
            Some(Download(kind, OutputBase(info) + out.ext, info.id))
  }

  /** The loop over the playlist from `acc` on: stop once video_count
      videos are counted. */
  function Run(test: SkipTest, downloaded: set<string>, entries: seq<Entry>, videoCount: int, acc: seq<Download>)
    : seq<Download>
    decreases |entries|
  {
    if entries == [] || |acc| >= videoCount then acc
    else Run(test, downloaded, entries[1..], videoCount, acc + Catalogue.OptionSeq(Process(test, downloaded, entries[0])))
  }

  /** The loop never counts past video_count, only appends, and every
      counted video came from an entry that processed to it. */
  lemma {:induction false} RunBound(test: SkipTest, downloaded: set<string>, entries: seq<Entry>, videoCount: int,
                                    acc: seq<Download>)
    ensures |Run(test, downloaded, entries, videoCount, acc)| <= Catalogue.Max(|acc|, videoCount)
    ensures acc <= Run(test, downloaded, entries, videoCount, acc)
    ensures forall d :: d in Run(test, downloaded, entries, videoCount, acc) ==>
      d in acc || exists i :: 0 <= i < |entries| && Process(test, downloaded, entries[i]) == Some(d)
    decreases |entries|
  {
    if !(entries == [] || |acc| >= videoCount) {
      var next := acc + Catalogue.OptionSeq(Process(test, downloaded, entries[0]));
      RunBound(test, downloaded, entries[1..], videoCount, next);
      forall d | d in Run(test, downloaded, entries, videoCount, acc)
        ensures d in acc || exists i :: 0 <= i < |entries| && Process(test, downloaded, entries[i]) == Some(d)
      {
        if d !in next {
          var i :| 0 <= i < |entries[1..]| && Process(test, downloaded, entries[1..][i]) == Some(d);
          assert entries[1..][i] == entries[i + 1];
        } else if d !in acc {
          assert Process(test, downloaded, entries[0]) == Some(d);
        }
      }
    }
  }

  /** A counted video is not live, passes the skip test and left a non-empty
      file; it lands in the shorts folder iff it is taller than wide. */
  lemma ProcessKind(test: SkipTest, downloaded: set<string>, e: Entry)
    requires Process(test, downloaded, e).Some?
    ensures e.Info? && !e.info.live && !Skips(test, downloaded, e.info)
    ensures test == AsWritten ==> e.info.title !in downloaded
    ensures Process(test, downloaded, e).value.kind == Catalogue.Shorts <==> IsShort(e.info.width, e.info.height)
    ensures e.output.Some? && e.output.value.size > 0
  {
  }

  /** Re-running the loop over a channel whose folder already holds a video's
      own file: as written, the video is counted toward video_count again
      (and the download and download_comments are called for it again,
      though the latter stops at its top/ check once comments were saved);
      with the corrected test it is skipped. */
  lemma RerunCountsOwnFileAgain(info: VideoInfo, ext: string, mtime: int, out: OutputFile)
    requires '.' !in ext && !(|OutputBase(info)| > 0 && OutputBase(info)[0] == '.')
    requires !info.live && out.size > 0
    ensures var downloaded := DownloadedNames([FileStat(OutputBase(info) + "." + ext, mtime, true)], []);
      var kind := if IsShort(info.width, info.height) then Catalogue.Shorts else Catalogue.Video;
      && Run(AsWritten, downloaded, [Info(info, Some(out))], 1, []) == [Download(kind, OutputBase(info) + out.ext, info.id)]
      && Run(Corrected, downloaded, [Info(info, Some(out))], 1, []) == []
  {
    var downloaded := DownloadedNames([FileStat(OutputBase(info) + "." + ext, mtime, true)], []);
    var e := Info(info, Some(out));
    AsWrittenMissesOwnFile(info, ext, mtime);
    CorrectedFindsOwnFile(info, ext, mtime);
    assert [e][1..] == [];
    assert Process(Corrected, downloaded, e) == None;
  }

  /** The per-channel loop of download_videos; returns downloaded_count and
      the videos it counts. `AsWritten` is the loop of the source. */
  method DownloadChannel(test: SkipTest, downloaded: set<string>, entries: seq<Entry>, videoCount: int)
    returns (downloadedCount: nat, videos: seq<Download>)
    ensures videos == Run(test, downloaded, entries, videoCount, [])
    ensures downloadedCount == |videos| <= Catalogue.Max(0, videoCount)
  {
    downloadedCount := 0;
    videos := [];
    var i := 0;
    while i < |entries|
      invariant 0 <= i <= |entries|
      invariant Run(test, downloaded, entries[i..], videoCount, videos) == Run(test, downloaded, entries, videoCount, [])
      invariant downloadedCount == |videos|
    {
      if downloadedCount >= videoCount {
        break;
      }
      assert entries[i..][1..] == entries[i + 1..];
      assert entries[i..][0] == entries[i];
      ghost var before := videos;
      var d := Process(test, downloaded, entries[i]);
      if d.Some? {
        videos := videos + [d.value];
        downloadedCount := downloadedCount + 1;
      }
      assert videos == before + Catalogue.OptionSeq(d);
      i := i + 1;
    }
    RunBound(test, downloaded, entries, videoCount, []);
  }
}
