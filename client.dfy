/** The browser client (static/script.js): the paging state of the videos
    feed, the shorts feed and the search feed, the shorts navigator, and two
    pure helpers (the duration label and the comment display caps).

    Each asynchronous loader is split into a begin step (the guard, the busy
    flag, the request it sends) and a done step (the reply applied, the flag
    cleared). The steps are functions on the part of the state they touch;
    the `FeedController` class holds the same state in fields and its
    methods are proved to perform those steps and to leave the rest alone.
    Fetches, timers and the DOM are outside: replies and random numbers are
    parameters, and rendering is reduced to the lists of items shown. */
module Client {

  import opened Wrappers
  import opened Text

  const VideosPerPage: nat := 20
  const ShortsPerPage: nat := 10
  const SearchResultsPerPage: nat := 20

  /** openRandomShort's first batch: five pages of shorts. */
  const RandomBatch: nat := ShortsPerPage * 5

  datatype Tab = VideosTab | ShortsTab | SearchTab

  /** A feed item as the client uses it. */
  datatype Item = Item(videoId: string, title: string)

  /** The query of a GET /api/content request. */
  datatype ContentRequest = ContentRequest(videosSkip: nat, videosLimit: nat, shortsSkip: nat, shortsLimit: nat)

  /** The query of a GET /api/videos/search request. */
  datatype SearchRequest = SearchRequest(query: string, skip: nat, limit: nat)

  /** A parsed /api/content reply; a missing list is empty. */
  datatype ContentData = ContentData(videos: seq<Item>, hasMoreVideos: bool, shorts: seq<Item>, hasMoreShorts: bool)

  /** What a fetch delivers: a parsed reply, or a failure (network error,
      unparsable body, or a non-OK status where the caller tests
      `response.ok`). */
  datatype Reply<T> = Ok(data: T) | Failed

  /** Which of the three loaders sharing the busy flag has a fetch in flight. */
  datatype Loader = Idle | ContentLoader | MoreVideosLoader | MoreShortsLoader

  /** The variables of the videos and shorts feeds; `videosShown` is what the
      videos grid holds, `pending` the loader in flight. */
  datatype ContentFeeds = ContentFeeds(
    videosPage: nat,
    shortsPage: nat,
    isLoadingContent: bool,
    hasMoreVideos: bool,
    hasMoreShorts: bool,
    allShortsLoaded: seq<Item>,
    videosShown: seq<Item>,
    pending: Loader)

  /** The shorts navigator: its list, its index, and the short the modal
      shows (`None` when closed). */
  datatype Navigator = Navigator(shortsData: seq<Item>, currentShortIndex: int, playing: Option<Item>)

  /** The variables of the search feed; `searchShown` is what the results
      grid holds, `searchMoreVisible` whether its load-more control shows. */
  datatype SearchFeed = SearchFeed(
    searchPage: nat,
    currentSearchQuery: string,
    isLoadingSearch: bool,
    searchShown: seq<Item>,
    searchMoreVisible: bool)

  /** The module-level state of the client; `randomPending` counts the
      openRandomShort fetches in flight. */
  datatype FeedState = FeedState(currentTab: Tab, content: ContentFeeds, nav: Navigator, search: SearchFeed,
                                 randomPending: nat)

  /** The state when the page has loaded its script. */
  const InitialState := FeedState(VideosTab, ContentFeeds(0, 0, false, true, true, [], [], Idle),
                                  Navigator([], 0, None), SearchFeed(0, [], false, [], false), 0)

  /** The busy flag is set exactly while one of its loaders is in flight. */
  predicate ContentConsistent(c: ContentFeeds) {
    c.isLoadingContent <==> c.pending != Idle
  }

  /** The navigator's list is a prefix of the loaded shorts and the short
      shown is the one at the index. */
  predicate NavConsistent(n: Navigator, all: seq<Item>) {
    && n.currentShortIndex >= 0
    && n.shortsData <= all
    && (n.playing.Some? ==> n.currentShortIndex < |n.shortsData| && n.shortsData[n.currentShortIndex] == n.playing.value)
  }

  predicate Consistent(s: FeedState) {
    ContentConsistent(s.content) && NavConsistent(s.nav, s.content.allShortsLoaded)
  }

  // ---------------------------------------------------------------------
  // The three loaders sharing isLoadingContent

  /** loadContent: both feeds from their current pages; guarded only by the
      busy flag. */
  function LoadContentRequest(c: ContentFeeds): Option<ContentRequest> {
    if c.isLoadingContent then None
    else Some(ContentRequest(c.videosPage * VideosPerPage, VideosPerPage, c.shortsPage * ShortsPerPage, ShortsPerPage))
  }

  function LoadContentBegin(c: ContentFeeds): ContentFeeds {
    if c.isLoadingContent then c else c.(isLoadingContent := true, pending := ContentLoader)
  }

  /** The `finally` of every loader. */
  function Settle(c: ContentFeeds): ContentFeeds {
    c.(isLoadingContent := false, pending := Idle)
  }

  function AppendVideos(c: ContentFeeds, d: ContentData): ContentFeeds {
    if |d.videos| > 0 then
      c.(videosShown := c.videosShown + d.videos, videosPage := c.videosPage + 1, hasMoreVideos := d.hasMoreVideos)
    else c
  }

  function AppendShorts(c: ContentFeeds, d: ContentData): ContentFeeds {
    if |d.shorts| > 0 then
      c.(allShortsLoaded := c.allShortsLoaded + d.shorts, shortsPage := c.shortsPage + 1, hasMoreShorts := d.hasMoreShorts)
    else c
  }

  function LoadContentDone(c: ContentFeeds, reply: Reply<ContentData>): ContentFeeds {
    match reply
    case Failed => Settle(c)
    case Ok(d) => AppendShorts(AppendVideos(Settle(c), d), d)
  }

  /** loadMoreVideos: the next videos page, unless busy or exhausted. */
  function MoreVideosRequest(c: ContentFeeds): Option<ContentRequest> {
    if c.isLoadingContent || !c.hasMoreVideos then None
    else Some(ContentRequest(c.videosPage * VideosPerPage, VideosPerPage, 0, 0))
  }

  function MoreVideosBegin(c: ContentFeeds): ContentFeeds {
    if c.isLoadingContent || !c.hasMoreVideos then c else c.(isLoadingContent := true, pending := MoreVideosLoader)
  }

  function MoreVideosDone(c: ContentFeeds, reply: Reply<ContentData>): ContentFeeds {
    match reply
    case Failed => Settle(c)
    case Ok(d) => if |d.videos| > 0 then AppendVideos(Settle(c), d) else Settle(c).(hasMoreVideos := false)
  }

  /** loadMoreShorts: the next shorts page, unless busy or exhausted. */
  function MoreShortsRequest(c: ContentFeeds): Option<ContentRequest> {
    if c.isLoadingContent || !c.hasMoreShorts then None
    else Some(ContentRequest(0, 0, c.shortsPage * ShortsPerPage, ShortsPerPage))
  }

  function MoreShortsBegin(c: ContentFeeds): ContentFeeds {
    if c.isLoadingContent || !c.hasMoreShorts then c else c.(isLoadingContent := true, pending := MoreShortsLoader)
  }

  function MoreShortsDone(c: ContentFeeds, reply: Reply<ContentData>): ContentFeeds {
    match reply
    case Failed => Settle(c)
    case Ok(d) => AppendShorts(Settle(c), d)
  }

  /** While a loader is in flight no other one sends a request or changes
      anything: at most one content fetch is in flight. */
  lemma OneContentFetch(c: ContentFeeds)
    requires ContentConsistent(c) && c.pending != Idle
    ensures LoadContentRequest(c).None? && MoreVideosRequest(c).None? && MoreShortsRequest(c).None?
    ensures LoadContentBegin(c) == c && MoreVideosBegin(c) == c && MoreShortsBegin(c) == c
  {
  }

  /** The guards: loadMoreVideos and loadMoreShorts send nothing and change
      nothing when busy or when their feed is exhausted, loadContent only
      when busy; otherwise they set the busy flag and ask for the page after
      the last one received. */
  lemma LoaderGuards(c: ContentFeeds)
    ensures LoadContentRequest(c).None? <==> c.isLoadingContent
    ensures LoadContentRequest(c).None? ==> LoadContentBegin(c) == c
    ensures LoadContentRequest(c).Some? ==>
      LoadContentRequest(c).value == ContentRequest(c.videosPage * 20, 20, c.shortsPage * 10, 10) &&
      LoadContentBegin(c) == c.(isLoadingContent := true, pending := ContentLoader)
    ensures MoreVideosRequest(c).None? <==> c.isLoadingContent || !c.hasMoreVideos
    ensures MoreVideosRequest(c).None? ==> MoreVideosBegin(c) == c
    ensures MoreVideosRequest(c).Some? ==>
      MoreVideosRequest(c).value == ContentRequest(c.videosPage * 20, 20, 0, 0) &&
      MoreVideosBegin(c) == c.(isLoadingContent := true, pending := MoreVideosLoader)
    ensures MoreShortsRequest(c).None? <==> c.isLoadingContent || !c.hasMoreShorts
    ensures MoreShortsRequest(c).None? ==> MoreShortsBegin(c) == c
    ensures MoreShortsRequest(c).Some? ==>
      MoreShortsRequest(c).value == ContentRequest(0, 0, c.shortsPage * 10, 10) &&
      MoreShortsBegin(c) == c.(isLoadingContent := true, pending := MoreShortsLoader)
  {
  }

  /** A non-empty videos page appends its items, advances the page by one
      and copies has_more_videos; in loadMoreVideos an empty page ends the
      feed and keeps the page; loadContent leaves the videos feed alone on
      an empty page. */
  lemma VideosPageApplied(c: ContentFeeds, d: ContentData)
    ensures var t := MoreVideosDone(c, Ok(d));
      if |d.videos| > 0 then
        t.videosPage == c.videosPage + 1 && t.hasMoreVideos == d.hasMoreVideos &&
        t.videosShown == c.videosShown + d.videos
      else
        t.videosPage == c.videosPage && !t.hasMoreVideos && t.videosShown == c.videosShown
    ensures var t := LoadContentDone(c, Ok(d));
      if |d.videos| > 0 then
        t.videosPage == c.videosPage + 1 && t.hasMoreVideos == d.hasMoreVideos &&
        t.videosShown == c.videosShown + d.videos
      else
        t.videosPage == c.videosPage && t.hasMoreVideos == c.hasMoreVideos && t.videosShown == c.videosShown
  {
  }

  /** A non-empty shorts page appends its shorts in order, advances the
      page and copies has_more_shorts; an empty one changes none of them. */
  lemma ShortsPageApplied(c: ContentFeeds, d: ContentData)
    ensures var t := MoreShortsDone(c, Ok(d));
      var u := LoadContentDone(c, Ok(d));
      if |d.shorts| > 0 then
        t.allShortsLoaded == c.allShortsLoaded + d.shorts && t.shortsPage == c.shortsPage + 1 &&
        t.hasMoreShorts == d.hasMoreShorts &&
        u.allShortsLoaded == c.allShortsLoaded + d.shorts && u.shortsPage == c.shortsPage + 1 &&
        u.hasMoreShorts == d.hasMoreShorts
      else
        t == c.(isLoadingContent := false, pending := Idle) &&
        u.allShortsLoaded == c.allShortsLoaded && u.shortsPage == c.shortsPage && u.hasMoreShorts == c.hasMoreShorts
  {
  }

  /** A failed fetch changes no page counter, flag or list: only the busy
      flag is cleared. Every done step clears it. */
  lemma FailureKeepsFeeds(c: ContentFeeds, reply: Reply<ContentData>)
    ensures LoadContentDone(c, Failed) == c.(isLoadingContent := false, pending := Idle)
    ensures MoreVideosDone(c, Failed) == c.(isLoadingContent := false, pending := Idle)
    ensures MoreShortsDone(c, Failed) == c.(isLoadingContent := false, pending := Idle)
    ensures !LoadContentDone(c, reply).isLoadingContent && !MoreVideosDone(c, reply).isLoadingContent &&
            !MoreShortsDone(c, reply).isLoadingContent
  {
  }

  /** The content loaders keep the busy-flag invariant and only ever extend
      the loaded shorts. */
  lemma ContentStepsConsistent(c: ContentFeeds, reply: Reply<ContentData>)
    requires ContentConsistent(c)
    ensures ContentConsistent(LoadContentBegin(c)) && ContentConsistent(MoreVideosBegin(c))
    ensures ContentConsistent(MoreShortsBegin(c)) && ContentConsistent(LoadContentDone(c, reply))
    ensures ContentConsistent(MoreVideosDone(c, reply)) && ContentConsistent(MoreShortsDone(c, reply))
    ensures c.allShortsLoaded <= LoadContentDone(c, reply).allShortsLoaded
    ensures c.allShortsLoaded <= MoreShortsDone(c, reply).allShortsLoaded
    ensures c.allShortsLoaded == MoreVideosDone(c, reply).allShortsLoaded
    ensures c.allShortsLoaded == LoadContentBegin(c).allShortsLoaded == MoreVideosBegin(c).allShortsLoaded
    ensures c.allShortsLoaded == MoreShortsBegin(c).allShortsLoaded
  {
  }

  /** The navigator invariant survives more shorts being loaded. */
  lemma NavGrows(n: Navigator, a: seq<Item>, b: seq<Item>)
    requires NavConsistent(n, a) && a <= b
    ensures NavConsistent(n, b)
  {
  }

  // ---------------------------------------------------------------------
  // The shorts navigator

  /** `shortsData.findIndex(s => s.video_id === id)`: -1 when absent. */
  function FindIndex(items: seq<Item>, id: string): (i: int)
    ensures -1 <= i < |items|
    ensures i >= 0 ==> items[i].videoId == id && forall k :: 0 <= k < i ==> items[k].videoId != id
    ensures i == -1 ==> forall k :: 0 <= k < |items| ==> items[k].videoId != id
  {
    if items == [] then -1
    else if items[0].videoId == id then 0
    else
      var j := FindIndex(items[1..], id);
      if j == -1 then -1 else j + 1
  }

  /** openShortsModal with `fromArray` set: fall back to the loaded shorts
      when the list is empty and show the short at the index; an index out
      of range throws before the modal opens. */
  function Present(n: Navigator, all: seq<Item>): Navigator {
    var t := if |n.shortsData| == 0 then n.(shortsData := all) else n;
    if 0 <= t.currentShortIndex < |t.shortsData| then t.(playing := Some(t.shortsData[t.currentShortIndex])) else t
  }

  lemma PresentConsistent(n: Navigator, all: seq<Item>)
    requires NavConsistent(n, all)
    ensures NavConsistent(Present(n, all), all)
  {
  }

  /** openShortsModal: without `fromArray` the index is looked up by id, and
      a short not in the list opens the first one. */
  function OpenShortsModalStep(n: Navigator, all: seq<Item>, short: Item, fromArray: bool): Navigator {
    if fromArray then Present(n, all)
    else
      var t := if |n.shortsData| == 0 then n.(shortsData := all) else n;
      var i := FindIndex(t.shortsData, short.videoId);
      Present(t.(currentShortIndex := if i == -1 then 0 else i), all)
  }

  /** Opening a clicked short: the list falls back to the loaded shorts when
      empty; the first short with the clicked id is shown, or the first
      short when none has it. With no shorts at all nothing is shown (the
      source throws before the modal opens). */
  lemma OpenShortsModalIndex(n: Navigator, all: seq<Item>, short: Item)
    ensures var list := if |n.shortsData| == 0 then all else n.shortsData;
      var t := OpenShortsModalStep(n, all, short, false);
      && t.shortsData == list
      && (|list| == 0 ==> t.playing == n.playing)
      && (|list| > 0 ==>
            && 0 <= t.currentShortIndex < |list|
            && t.playing == Some(list[t.currentShortIndex])
            && ((exists k :: 0 <= k < |list| && list[k].videoId == short.videoId) <==>
                  list[t.currentShortIndex].videoId == short.videoId)
            && (forall k :: 0 <= k < t.currentShortIndex ==> list[k].videoId != short.videoId)
            && (list[t.currentShortIndex].videoId != short.videoId ==> t.currentShortIndex == 0))
  {
  }

  /** Opening from the navigator (`fromArray`): the index is kept and the
      short at it is shown when it is in range. */
  lemma OpenShortsFromArray(n: Navigator, all: seq<Item>, short: Item)
    ensures var list := if |n.shortsData| == 0 then all else n.shortsData;
      var t := OpenShortsModalStep(n, all, short, true);
      && t.shortsData == list
      && t.currentShortIndex == n.currentShortIndex
      && t.playing == (if 0 <= n.currentShortIndex < |list| then Some(list[n.currentShortIndex]) else n.playing)
  {
  }

  lemma OpenShortsConsistent(n: Navigator, all: seq<Item>, short: Item, fromArray: bool)
    requires NavConsistent(n, all)
    ensures NavConsistent(OpenShortsModalStep(n, all, short, fromArray), all)
  {
    PresentConsistent(n, all);
    if !fromArray {
      var t := if |n.shortsData| == 0 then n.(shortsData := all) else n;
      var i := FindIndex(t.shortsData, short.videoId);
      PresentConsistent(t.(currentShortIndex := if i == -1 then 0 else i, playing := None), all);
    }
  }

  /** nextShort moves on when the index is before the last loaded short. */
  predicate NextMoves(s: FeedState) {
    s.nav.currentShortIndex < |s.content.allShortsLoaded| - 1
  }

  /** After moving, loadMoreShorts is called when within five of the end
      and more shorts exist. */
  predicate NextPrefetches(s: FeedState) {
    NextMoves(s) && s.nav.currentShortIndex + 1 >= |s.content.allShortsLoaded| - 5 && s.content.hasMoreShorts
  }

  /** nextShort: the navigator list is refreshed from the loaded shorts. */
  function NextShortStep(s: FeedState): FeedState {
    var all := s.content.allShortsLoaded;
    if NextMoves(s) then
      var s1 := s.(nav := Present(Navigator(all, s.nav.currentShortIndex + 1, s.nav.playing), all));
      if NextPrefetches(s) then s1.(content := MoreShortsBegin(s1.content)) else s1
    else s.(nav := s.nav.(shortsData := all))
  }

  /** The request nextShort sends through loadMoreShorts, if any. */
  function NextShortRequest(s: FeedState): Option<ContentRequest> {
    if NextPrefetches(s) then MoreShortsRequest(s.content) else None
  }

  function PreviousShortStep(n: Navigator, all: seq<Item>): Navigator {
    var t := n.(shortsData := all);
    if t.currentShortIndex > 0 then Present(t.(currentShortIndex := t.currentShortIndex - 1), all) else t
  }

  /** Starting inside the loaded shorts, next and previous move the index by
      at most one and keep it inside; the short shown follows the index. */
  lemma NavigationInRange(s: FeedState)
    requires 0 <= s.nav.currentShortIndex < |s.content.allShortsLoaded|
    ensures var all := s.content.allShortsLoaded;
      var t := NextShortStep(s);
      && t.content.allShortsLoaded == all
      && t.nav.currentShortIndex == (if s.nav.currentShortIndex < |all| - 1 then s.nav.currentShortIndex + 1
                                     else s.nav.currentShortIndex)
      && 0 <= t.nav.currentShortIndex < |all|
      && (NextMoves(s) ==> t.nav.playing == Some(all[t.nav.currentShortIndex]))
    ensures var all := s.content.allShortsLoaded;
      var n := PreviousShortStep(s.nav, all);
      && n.currentShortIndex == (if s.nav.currentShortIndex > 0 then s.nav.currentShortIndex - 1
                                 else s.nav.currentShortIndex)
      && 0 <= n.currentShortIndex < |all|
      && (s.nav.currentShortIndex > 0 ==> n.playing == Some(all[n.currentShortIndex]))
  {
  }

  /** After a move, loadMoreShorts is invoked iff the new index is at least
      len - 5 and more shorts exist; it then sends the next shorts page unless
      the busy flag is set. */
  lemma NextShortPrefetch(s: FeedState)
    requires NextMoves(s)
    ensures NextPrefetches(s) <==>
      NextShortStep(s).nav.currentShortIndex >= |s.content.allShortsLoaded| - 5 && s.content.hasMoreShorts
    ensures NextShortRequest(s).Some? <==> NextPrefetches(s) && !s.content.isLoadingContent
    ensures NextShortRequest(s).Some? ==>
      NextShortRequest(s).value == ContentRequest(0, 0, s.content.shortsPage * 10, 10)
  {
  }

  lemma NavigatorConsistent(s: FeedState)
    requires Consistent(s)
    ensures Consistent(NextShortStep(s))
    ensures NavConsistent(PreviousShortStep(s.nav, s.content.allShortsLoaded), s.content.allShortsLoaded)
  {
    var all := s.content.allShortsLoaded;
    if NextMoves(s) {
      PresentConsistent(Navigator(all, s.nav.currentShortIndex + 1, None), all);
      ContentStepsConsistent(s.content, Failed);
    }
    if s.nav.currentShortIndex > 0 {
      PresentConsistent(Navigator(all, s.nav.currentShortIndex - 1, None), all);
    }
  }

  /** closeShortsModal: close, reset the navigator, and go back to the
      videos tab through the switchTab wrapper. */
  function CloseShortsModalStep(s: FeedState): FeedState {
    SwitchTabStep(s.(nav := Navigator([], 0, None)), VideosTab)
  }

  lemma CloseResets(s: FeedState)
    ensures var t := CloseShortsModalStep(s);
      t.nav == Navigator([], 0, None) && t.currentTab == VideosTab &&
      t.search.searchPage == 0 && t.search.currentSearchQuery == [] && t.content == s.content
  {
  }

  // ---------------------------------------------------------------------
  // openRandomShort

  /** `Math.ceil(n / d)` for naturals. */
  function CeilDiv(n: nat, d: nat): (r: nat)
    requires d > 0
    ensures r * d >= n && (r > 0 ==> (r - 1) * d < n)
  {
    var q := (n + d - 1) / d;
    assert q * d + (n + d - 1) % d == n + d - 1;
    assert q > 0 ==> (q - 1) * d == q * d - d;
    q
  }

  /** `Math.floor(random * n)` for `0 <= random < 1`. */
  function RandomIndex(random: real, n: nat): (i: int)
    requires 0.0 <= random < 1.0
    ensures n > 0 ==> 0 <= i < n
  {
    var x := random * n as real;
    assert n > 0 ==> x < n as real by {
      if n > 0 {
        assert n as real - x == (1.0 - random) * n as real;
      }
    }
    x.Floor
  }

  /** The request openRandomShort sends: a first batch when no shorts are
      loaded yet. It does not use the busy flag. */
  function OpenRandomRequest(s: FeedState): Option<ContentRequest> {
    if |s.content.allShortsLoaded| == 0 then Some(ContentRequest(0, 0, 0, RandomBatch)) else None
  }

  /** Show a random one of the loaded shorts, if any. */
  function ShowRandom(s: FeedState, random: real): FeedState
    requires 0.0 <= random < 1.0
  {
    var all := s.content.allShortsLoaded;
    if |all| > 0 then s.(nav := Present(Navigator(all, RandomIndex(random, |all|), s.nav.playing), all)) else s
  }

  function OpenRandomBegin(s: FeedState, random: real): FeedState
    requires 0.0 <= random < 1.0
  {
    if |s.content.allShortsLoaded| == 0 then s.(randomPending := s.randomPending + 1) else ShowRandom(s, random)
  }

  /** The first batch replaces the loaded shorts, sets the page to
      ceil(len/10) and copies has_more_shorts. */
  function ReplaceShorts(c: ContentFeeds, d: ContentData): ContentFeeds {
    if |d.shorts| > 0 then
      c.(allShortsLoaded := d.shorts, shortsPage := CeilDiv(|d.shorts|, ShortsPerPage), hasMoreShorts := d.hasMoreShorts)
    else c
  }

  /** The reply to the first batch; a failure ends the call. openRandomShort
      does not test `response.ok`, so a non-OK reply with a JSON body (such as
      a 404 `{"detail": ...}`) is `Ok` with empty lists: nothing is replaced
      and the call goes on to show a short if any are loaded. */
  function OpenRandomDone(s: FeedState, reply: Reply<ContentData>, random: real): FeedState
    requires s.randomPending > 0 && 0.0 <= random < 1.0
  {
    var t := s.(randomPending := s.randomPending - 1);
    match reply
    case Failed => t
    case Ok(d) => ShowRandom(t.(content := ReplaceShorts(t.content, d)), random)
  }

  /** The first batch sets the page to ceil(len/10) and shows a short at an
      index in [0, len). */
  lemma RandomBatchApplied(s: FeedState, d: ContentData, random: real)
    requires s.randomPending > 0 && 0.0 <= random < 1.0 && |d.shorts| > 0
    ensures var t := OpenRandomDone(s, Ok(d), random);
      && t.content.allShortsLoaded == d.shorts && t.nav.shortsData == d.shorts
      && t.content.shortsPage * 10 >= |d.shorts| > (t.content.shortsPage - 1) * 10
      && 0 <= t.nav.currentShortIndex < |d.shorts|
      && t.nav.playing == Some(d.shorts[t.nav.currentShortIndex])
      && t.content.hasMoreShorts == d.hasMoreShorts
      && t.randomPending == s.randomPending - 1
  {
  }

  /** Showing a random short restores the navigator invariant whenever
      shorts are loaded. */
  lemma ShowRandomConsistent(s: FeedState, random: real)
    requires 0.0 <= random < 1.0 && ContentConsistent(s.content)
    requires |s.content.allShortsLoaded| == 0 ==> Consistent(s)
    ensures Consistent(ShowRandom(s, random))
  {
  }

  lemma RandomStepsConsistent(s: FeedState, reply: Reply<ContentData>, random: real)
    requires Consistent(s) && 0.0 <= random < 1.0
    ensures Consistent(OpenRandomBegin(s, random))
    ensures s.randomPending > 0 ==> Consistent(OpenRandomDone(s, reply, random))
  {
    ShowRandomConsistent(s, random);
    if s.randomPending > 0 {
      var t := s.(randomPending := s.randomPending - 1);
      if reply.Ok? {
        ShowRandomConsistent(t.(content := ReplaceShorts(t.content, reply.data)), random);
      }
    }
  }

  // ---------------------------------------------------------------------
  // Tabs and search

  /** The window.switchTab wrapper: leaving for any tab but search resets the
      search cursor; then the original switchTab. */
  function SwitchTabStep(s: FeedState, tab: Tab): FeedState {
    var search := if tab != SearchTab then s.search.(searchPage := 0, currentSearchQuery := []) else s.search;
    s.(currentTab := tab, search := search)
  }

  /** Switching to the shorts tab schedules openRandomShort. */
  predicate SwitchOpensRandom(tab: Tab) {
    tab == ShortsTab
  }

  function Trimmed(input: string): string {
    Strip(input, JsWhitespace)
  }

  /** loadSearchResults: the current query's next page, unless a search is
      in flight or the query is blank. */
  function LoadSearchRequest(f: SearchFeed): Option<SearchRequest> {
    if f.isLoadingSearch || Trimmed(f.currentSearchQuery) == [] then None
    else Some(SearchRequest(f.currentSearchQuery, f.searchPage * SearchResultsPerPage, SearchResultsPerPage))
  }

  function LoadSearchBegin(f: SearchFeed): SearchFeed {
    if f.isLoadingSearch || Trimmed(f.currentSearchQuery) == [] then f else f.(isLoadingSearch := true)
  }

  /** The reply is applied to the current query, whichever query it was
      sent for. */
  function LoadSearchDone(f: SearchFeed, reply: Reply<seq<Item>>): SearchFeed {
    var t := f.(isLoadingSearch := false);
    if reply.Ok? && |reply.data| > 0 then
      t.(searchShown := t.searchShown + reply.data, searchPage := t.searchPage + 1,
         searchMoreVisible := |reply.data| == SearchResultsPerPage)
    else if t.searchPage == 0 then t.(searchShown := [], searchMoreVisible := false)
    else t.(searchMoreVisible := false)
  }

  /** performSearch: a trimmed query equal to the current one does nothing;
      a new one resets the cursor, clears the results and, unless blank,
      loads its first page. */
  function PerformSearchStep(f: SearchFeed, input: string): SearchFeed {
    var q := Trimmed(input);
    if q == f.currentSearchQuery then f
    else
      var t := f.(currentSearchQuery := q, searchPage := 0, searchShown := []);
      if q == [] then t else LoadSearchBegin(t)
  }

  function PerformSearchRequest(f: SearchFeed, input: string): Option<SearchRequest> {
    var q := Trimmed(input);
    if q == f.currentSearchQuery || q == [] then None
    else LoadSearchRequest(f.(currentSearchQuery := q, searchPage := 0, searchShown := []))
  }

  /** A search whose trimmed query equals the current one does nothing. */
  lemma SearchSameQuery(f: SearchFeed, input: string)
    requires Trimmed(input) == f.currentSearchQuery
    ensures PerformSearchStep(f, input) == f && PerformSearchRequest(f, input).None?
  {
  }

  /** A changed query starts from page 0 with no results. */
  lemma SearchNewQuery(f: SearchFeed, input: string)
    requires Trimmed(input) != f.currentSearchQuery
    ensures var t := PerformSearchStep(f, input);
      t.searchPage == 0 && t.currentSearchQuery == Trimmed(input) && t.searchShown == []
  {
  }

  /** A blank query sends nothing; any other changed query asks for its
      first page, unless a search is in flight. */
  lemma SearchFirstPage(f: SearchFeed, input: string)
    ensures Trimmed(input) == [] ==> PerformSearchRequest(f, input).None?
    ensures Trimmed(input) != f.currentSearchQuery && Trimmed(input) != [] ==>
      PerformSearchRequest(f, input) == (if f.isLoadingSearch then None else Some(SearchRequest(Trimmed(input), 0, 20)))
  {
    var q := Trimmed(input);
    if q != f.currentSearchQuery && q != [] {
      StripIdempotent(input, JsWhitespace);
      FirstPageRequest(f.(currentSearchQuery := q, searchPage := 0, searchShown := []));
    }
  }

  lemma FirstPageRequest(g: SearchFeed)
    requires g.searchPage == 0 && Trimmed(g.currentSearchQuery) != []
    ensures LoadSearchRequest(g) == if g.isLoadingSearch then None else Some(SearchRequest(g.currentSearchQuery, 0, 20))
  {
  }

  /** A non-empty page advances the search page by one and shows the
      load-more control iff it is a full page of 20; an empty page or a
      failure keeps the page and hides the control, and on the first page
      clears the results; every path clears the busy flag. */
  lemma SearchPageApplied(f: SearchFeed, reply: Reply<seq<Item>>)
    ensures var t := LoadSearchDone(f, reply);
      && !t.isLoadingSearch
      && t.currentSearchQuery == f.currentSearchQuery
      && (reply.Ok? && |reply.data| > 0 ==>
            t.searchPage == f.searchPage + 1 && t.searchShown == f.searchShown + reply.data &&
            (t.searchMoreVisible <==> |reply.data| == 20))
      && (reply.Failed? || |reply.data| == 0 ==>
            t.searchPage == f.searchPage && !t.searchMoreVisible &&
            t.searchShown == (if f.searchPage == 0 then [] else f.searchShown))
  {
  }

  /** A reply that arrives after the query changed is still applied: a
      search typed while another is in flight sends nothing, the old query's
      results are shown under the new one, and the next page asked for is
      the new query's second. */
  lemma StaleSearchApplied(f: SearchFeed, input: string, oldResults: seq<Item>)
    requires f.isLoadingSearch && Trimmed(input) != f.currentSearchQuery && Trimmed(input) != []
    requires |oldResults| == 20
    ensures PerformSearchRequest(f, input).None?
    ensures var t := LoadSearchDone(PerformSearchStep(f, input), Ok(oldResults));
      && t.currentSearchQuery == Trimmed(input)
      && t.searchShown == oldResults
      && LoadSearchRequest(t) == Some(SearchRequest(Trimmed(input), 20, 20))
  {
    var q := Trimmed(input);
    var g := f.(currentSearchQuery := q, searchPage := 0, searchShown := []);
    StaleSearchStarts(f, input);
    StripIdempotent(input, JsWhitespace);
    StaleSearchLands(g, oldResults);
  }

  /** While a search is in flight a changed query resets the feed and sends nothing. */
  lemma StaleSearchStarts(f: SearchFeed, input: string)
    requires f.isLoadingSearch && Trimmed(input) != f.currentSearchQuery && Trimmed(input) != []
    ensures PerformSearchStep(f, input) == f.(currentSearchQuery := Trimmed(input), searchPage := 0, searchShown := [])
    ensures PerformSearchRequest(f, input).None?
  {
  }

  /** A full page landing on a reset feed is shown, and the next request is
      for the second page. */
  lemma StaleSearchLands(g: SearchFeed, results: seq<Item>)
    requires g.searchPage == 0 && g.searchShown == [] && Trimmed(g.currentSearchQuery) != [] && |results| == 20
    ensures var t := LoadSearchDone(g, Ok(results));
      && t.currentSearchQuery == g.currentSearchQuery
      && t.searchShown == results
      && LoadSearchRequest(t) == Some(SearchRequest(g.currentSearchQuery, 20, 20))
  {
    assert [] + results == results;
  }

  lemma InitialConsistent()
    ensures Consistent(InitialState)
  {
  }

  // ---------------------------------------------------------------------
  // The controller

  /** The client's module-level variables and the loaders that update them. */
  class FeedController {
    var currentTab: Tab
    var videosPage: nat
    var shortsPage: nat
    var isLoadingContent: bool
    var hasMoreVideos: bool
    var hasMoreShorts: bool
    var allShortsLoaded: seq<Item>
    var videosShown: seq<Item>
    var shortsData: seq<Item>
    var currentShortIndex: int
    var playing: Option<Item>
    var searchPage: nat
    var currentSearchQuery: string
    var isLoadingSearch: bool
    var searchShown: seq<Item>
    var searchMoreVisible: bool
    ghost var pending: Loader
    ghost var randomPending: nat

    ghost function Content(): ContentFeeds
      reads this
    {
      ContentFeeds(videosPage, shortsPage, isLoadingContent, hasMoreVideos, hasMoreShorts, allShortsLoaded,
                   videosShown, pending)
    }

    ghost function Nav(): Navigator
      reads this
    {
      Navigator(shortsData, currentShortIndex, playing)
    }

    ghost function Search(): SearchFeed
      reads this
    {
      SearchFeed(searchPage, currentSearchQuery, isLoadingSearch, searchShown, searchMoreVisible)
    }

    ghost function State(): FeedState
      reads this
    {
      FeedState(currentTab, Content(), Nav(), Search(), randomPending)
    }

    ghost predicate Valid()
      reads this
    {
      Consistent(State())
    }

    constructor()
      ensures State() == InitialState && Valid()
    {
      currentTab := VideosTab;
      videosPage := 0;
      shortsPage := 0;
      isLoadingContent := false;
      hasMoreVideos := true;
      hasMoreShorts := true;
      allShortsLoaded := [];
      videosShown := [];
      shortsData := [];
      currentShortIndex := 0;
      playing := None;
      searchPage := 0;
      currentSearchQuery := [];
      isLoadingSearch := false;
      searchShown := [];
      searchMoreVisible := false;
      pending := Idle;
      randomPending := 0;
    }

    method LoadContent() returns (request: Option<ContentRequest>)
      requires Valid()
      modifies this
      ensures request == LoadContentRequest(old(Content()))
      ensures State() == old(State()).(content := LoadContentBegin(old(Content())))
      ensures Valid()
    {
      ContentStepsConsistent(Content(), Failed);
      if isLoadingContent {
        return None;
      }
      isLoadingContent := true;
      pending := ContentLoader;
      request := Some(ContentRequest(videosPage * VideosPerPage, VideosPerPage, shortsPage * ShortsPerPage, ShortsPerPage));
    }

    method SettleLoader()
      modifies this
      ensures State() == old(State()).(content := Settle(old(Content())))
    {
      isLoadingContent := false;
      pending := Idle;
    }

    method AppendVideosPage(d: ContentData)
      modifies this
      ensures State() == old(State()).(content := AppendVideos(old(Content()), d))
    {
      if |d.videos| > 0 {
        videosShown := videosShown + d.videos;
        videosPage := videosPage + 1;
        hasMoreVideos := d.hasMoreVideos;
      }
    }

    method AppendShortsPage(d: ContentData)
      modifies this
      ensures State() == old(State()).(content := AppendShorts(old(Content()), d))
    {
      if |d.shorts| > 0 {
        allShortsLoaded := allShortsLoaded + d.shorts;
        shortsPage := shortsPage + 1;
        hasMoreShorts := d.hasMoreShorts;
      }
    }

    method LoadContentComplete(reply: Reply<ContentData>)
      requires Valid()
      modifies this
      ensures State() == old(State()).(content := LoadContentDone(old(Content()), reply))
      ensures Valid()
    {
      ContentStepsConsistent(Content(), reply);
      NavGrows(Nav(), allShortsLoaded, LoadContentDone(Content(), reply).allShortsLoaded);
      SettleLoader();
      if reply.Ok? {
        AppendVideosPage(reply.data);
        AppendShortsPage(reply.data);
      }
    }

    method LoadMoreVideos() returns (request: Option<ContentRequest>)
      requires Valid()
      modifies this
      ensures request == MoreVideosRequest(old(Content()))
      ensures State() == old(State()).(content := MoreVideosBegin(old(Content())))
      ensures Valid()
    {
      ContentStepsConsistent(Content(), Failed);
      if isLoadingContent || !hasMoreVideos {
        return None;
      }
      isLoadingContent := true;
      pending := MoreVideosLoader;
      request := Some(ContentRequest(videosPage * VideosPerPage, VideosPerPage, 0, 0));
    }

    method LoadMoreVideosComplete(reply: Reply<ContentData>)
      requires Valid()
      modifies this
      ensures State() == old(State()).(content := MoreVideosDone(old(Content()), reply))
      ensures Valid()
    {
      ContentStepsConsistent(Content(), reply);
      SettleLoader();
      if reply.Ok? {
        if |reply.data.videos| > 0 {
          AppendVideosPage(reply.data);
        } else {
          hasMoreVideos := false;
        }
      }
    }

    method LoadMoreShorts() returns (request: Option<ContentRequest>)
      requires Valid()
      modifies this
      ensures request == MoreShortsRequest(old(Content()))
      ensures State() == old(State()).(content := MoreShortsBegin(old(Content())))
      ensures Valid()
    {
      ContentStepsConsistent(Content(), Failed);
      if isLoadingContent || !hasMoreShorts {
        return None;
      }
      isLoadingContent := true;
      pending := MoreShortsLoader;
      request := Some(ContentRequest(0, 0, shortsPage * ShortsPerPage, ShortsPerPage));
    }

    method LoadMoreShortsComplete(reply: Reply<ContentData>)
      requires Valid()
      modifies this
      ensures State() == old(State()).(content := MoreShortsDone(old(Content()), reply))
      ensures Valid()
    {
      ContentStepsConsistent(Content(), reply);
      NavGrows(Nav(), allShortsLoaded, MoreShortsDone(Content(), reply).allShortsLoaded);
      SettleLoader();
      if reply.Ok? {
        AppendShortsPage(reply.data);
      }
    }

    /** openShortsModal with `fromArray` set. */
    method Show()
      modifies this
      ensures State() == old(State()).(nav := Present(old(Nav()), old(allShortsLoaded)))
    {
      if |shortsData| == 0 {
        shortsData := allShortsLoaded;
      }
      if 0 <= currentShortIndex < |shortsData| {
        playing := Some(shortsData[currentShortIndex]);
      }
    }

    method OpenShortsModal(short: Item, fromArray: bool)
      requires Valid()
      modifies this
      ensures State() == old(State()).(nav := OpenShortsModalStep(old(Nav()), old(allShortsLoaded), short, fromArray))
      ensures Valid()
    {
      OpenShortsConsistent(Nav(), allShortsLoaded, short, fromArray);
      if !fromArray {
        if |shortsData| == 0 {
          shortsData := allShortsLoaded;
        }
        currentShortIndex := FindIndex(shortsData, short.videoId);
        if currentShortIndex == -1 {
          currentShortIndex := 0;
        }
      }
      Show();
    }

    method ShowRandomShort(random: real)
      requires 0.0 <= random < 1.0
      modifies this
      ensures State() == ShowRandom(old(State()), random)
    {
      if |allShortsLoaded| > 0 {
        var randomIndex := RandomIndex(random, |allShortsLoaded|);
        shortsData := allShortsLoaded;
        currentShortIndex := randomIndex;
        Show();
      }
    }

    /** openRandomShort up to its fetch; `random` stands for Math.random(). */
    method OpenRandomShort(random: real) returns (request: Option<ContentRequest>)
      requires Valid() && 0.0 <= random < 1.0
      modifies this
      ensures request == OpenRandomRequest(old(State())) && State() == OpenRandomBegin(old(State()), random)
      ensures Valid()
    {
      RandomStepsConsistent(State(), Failed, random);
      if |allShortsLoaded| == 0 {
        randomPending := randomPending + 1;
        return Some(ContentRequest(0, 0, 0, RandomBatch));
      }
      request := None;
      ShowRandomShort(random);
    }

    method OpenRandomShortComplete(reply: Reply<ContentData>, random: real)
      requires Valid() && randomPending > 0 && 0.0 <= random < 1.0
      modifies this
      ensures State() == OpenRandomDone(old(State()), reply, random)
      ensures Valid()
    {
      RandomStepsConsistent(State(), reply, random);
      randomPending := randomPending - 1;
      if reply.Failed? {
        return;
      }
      ReplaceShortsBatch(reply.data);
      ShowRandomShort(random);
    }

    method ReplaceShortsBatch(d: ContentData)
      modifies this
      ensures State() == old(State()).(content := ReplaceShorts(old(Content()), d))
    {
      if |d.shorts| > 0 {
        allShortsLoaded := d.shorts;
        shortsPage := CeilDiv(|d.shorts|, ShortsPerPage);
        hasMoreShorts := d.hasMoreShorts;
      }
    }

    /** nextShort; reports whether loadMoreShorts was called and what it sent. */
    method NextShort() returns (prefetched: bool, request: Option<ContentRequest>)
      requires Valid()
      modifies this
      ensures prefetched == NextPrefetches(old(State())) && request == NextShortRequest(old(State()))
      ensures State() == NextShortStep(old(State()))
      ensures Valid()
    {
      NavigatorConsistent(State());
      ghost var s := State();
      prefetched := false;
      request := None;
      if currentShortIndex < |allShortsLoaded| - 1 {
        shortsData := allShortsLoaded;
        currentShortIndex := currentShortIndex + 1;
        Show();
        if currentShortIndex >= |shortsData| - 5 && hasMoreShorts {
          prefetched := true;
          PresentConsistent(Navigator(s.content.allShortsLoaded, s.nav.currentShortIndex + 1, None),
                            s.content.allShortsLoaded);
          request := LoadMoreShorts();
        }
      } else {
        shortsData := allShortsLoaded;
      }
    }

    method PreviousShort()
      requires Valid()
      modifies this
      ensures State() == old(State()).(nav := PreviousShortStep(old(Nav()), old(allShortsLoaded)))
      ensures Valid()
    {
      NavigatorConsistent(State());
      shortsData := allShortsLoaded;
      if currentShortIndex > 0 {
        currentShortIndex := currentShortIndex - 1;
        Show();
      }
    }

    /** The window.switchTab wrapper; returns whether openRandomShort is
        scheduled. */
    method SwitchTab(tab: Tab) returns (opensRandom: bool)
      requires Valid()
      modifies this
      ensures opensRandom == SwitchOpensRandom(tab) && State() == SwitchTabStep(old(State()), tab)
      ensures Valid()
    {
      if tab != SearchTab {
        searchPage := 0;
        currentSearchQuery := [];
      }
      currentTab := tab;
      opensRandom := tab == ShortsTab;
    }

    method CloseShortsModal()
      requires Valid()
      modifies this
      ensures State() == CloseShortsModalStep(old(State()))
      ensures Valid()
    {
      playing := None;
      shortsData := [];
      currentShortIndex := 0;
      var _ := SwitchTab(VideosTab);
    }

    method LoadSearchResults() returns (request: Option<SearchRequest>)
      requires Valid()
      modifies this
      ensures request == LoadSearchRequest(old(Search()))
      ensures State() == old(State()).(search := LoadSearchBegin(old(Search())))
      ensures Valid()
    {
      if isLoadingSearch || Trimmed(currentSearchQuery) == [] {
        return None;
      }
      isLoadingSearch := true;
      request := Some(SearchRequest(currentSearchQuery, searchPage * SearchResultsPerPage, SearchResultsPerPage));
    }

    method LoadSearchResultsComplete(reply: Reply<seq<Item>>)
      requires Valid()
      modifies this
      ensures State() == old(State()).(search := LoadSearchDone(old(Search()), reply))
      ensures Valid()
    {
      isLoadingSearch := false;
      if reply.Ok? && |reply.data| > 0 {
        searchShown := searchShown + reply.data;
        searchPage := searchPage + 1;
        searchMoreVisible := |reply.data| == SearchResultsPerPage;
      } else {
        if searchPage == 0 {
          searchShown := [];
        }
        searchMoreVisible := false;
      }
    }

    /** The reset performSearch does before loading a new query. */
    method StartQuery(query: string)
      requires Valid()
      modifies this
      ensures State() == old(State()).(search := old(Search()).(currentSearchQuery := query, searchPage := 0, searchShown := []))
      ensures Valid()
    {
      currentSearchQuery := query;
      searchPage := 0;
      searchShown := [];
    }

    method PerformSearch(input: string) returns (request: Option<SearchRequest>)
      requires Valid()
      modifies this
      ensures request == PerformSearchRequest(old(Search()), input)
      ensures State() == old(State()).(search := PerformSearchStep(old(Search()), input))
      ensures Valid()
    {
      ghost var s := State();
      var query := Trimmed(input);
      if query == currentSearchQuery {
        SearchSameQuery(s.search, input);
        return None;
      }
      ghost var t := s.search.(currentSearchQuery := query, searchPage := 0, searchShown := []);
      StartQuery(query);
      if query == [] {
        return None;
      }
      assert PerformSearchStep(s.search, input) == LoadSearchBegin(t);
      assert PerformSearchRequest(s.search, input) == LoadSearchRequest(t);
      request := LoadSearchResults();
    }
  }

  // ---------------------------------------------------------------------
  // formatDuration

  /** JavaScript's `%` for a positive divisor: the sign follows the dividend. */
  function JsRem(a: int, b: int): int
    requires b > 0
  {
    if a >= 0 then a % b else -((-a) % b)
  }

  /** `n.toString()` for an integer. */
  function JsString(n: int): string {
    if n < 0 then "-" + Decimal(-n) else Decimal(n)
  }

  /** formatDuration: "0:00" for a missing or zero duration, "m:ss" below an
      hour, "h:mm:ss" from an hour on. `Math.floor(x / d)` for a positive `d`
      is Dafny's `/`. */
  function FormatDuration(seconds: Option<int>): string {
    if seconds.None? || seconds.value == 0 then "0:00"
    else
      var s := seconds.value;
      var hours := s / 3600;
      var minutes := JsRem(s, 3600) / 60;
      var secs := JsRem(s, 60);
      if hours > 0 then
        JsString(hours) + ":" + PadLeft(JsString(minutes), 2, '0') + ":" + PadLeft(JsString(secs), 2, '0')
      else
        JsString(minutes) + ":" + PadLeft(JsString(secs), 2, '0')
  }

  /** A clock label read back: "m:ss" or "h:mm:ss" with two-digit inner
      fields. */
  function ParseClock(t: string): Option<int> {
    ClockValue(Split(t, ':'))
  }

  /** The value of the ':'-separated fields of a clock label. */
  function ClockValue(parts: seq<string>): Option<int> {
    if |parts| == 2 && IsNumber(parts[0]) && IsTwoDigits(parts[1]) then
      Some(ValueOf(parts[0]) * 60 + ValueOf(parts[1]))
    else if |parts| == 3 && IsNumber(parts[0]) && IsTwoDigits(parts[1]) && IsTwoDigits(parts[2]) then
      Some(ValueOf(parts[0]) * 3600 + ValueOf(parts[1]) * 60 + ValueOf(parts[2]))
    else None
  }

  predicate IsNumber(s: string) {
    s != [] && AllDigits(s)
  }

  predicate IsTwoDigits(s: string) {
    |s| == 2 && AllDigits(s)
  }

  /** The fields of the label of a positive duration: below an hour, minutes
      and two-digit seconds; from an hour on, hours and two-digit minutes and
      seconds, with h*3600 + m*60 + sec the duration. */
  lemma FormatDurationFields(s: nat)
    requires s > 0
    ensures s < 3600 ==> FormatDuration(Some(s)) == Decimal(s / 60) + ":" + ZeroPad(s % 60, 2)
    ensures s >= 3600 ==>
      FormatDuration(Some(s)) == Decimal(s / 3600) + ":" + ZeroPad(s % 3600 / 60, 2) + ":" + ZeroPad(s % 60, 2)
    ensures (s / 3600) * 3600 + (s % 3600 / 60) * 60 + s % 60 == s && s % 3600 / 60 < 60
  {
    ClockArithmetic(s);
    assert JsRem(s, 3600) == s % 3600 && JsRem(s, 60) == s % 60;
  }

  /** The label of any non-negative duration reads back as that duration. */
  lemma FormatDurationRoundTrip(s: nat)
    ensures ParseClock(FormatDuration(Some(s))) == Some(s)
  {
    if s == 0 {
      ReadZero();
    } else if s < 3600 {
      ReadMinutes(s);
    } else {
      ReadHours(s);
    }
  }

  /** The label of a zero duration, "0:00", reads back as 0. */
  lemma ReadZero()
    ensures ParseClock(FormatDuration(Some(0))) == Some(0)
  {
    assert FormatDuration(Some(0)) == "0" + ":" + "00";
    assert IsNumber("0") && IsTwoDigits("00");
    assert ValueOf("00") == 0 && ValueOf("0") == 0;
    ParseTwo("0", "00");
  }

  /** The two-digit field of a value below 60. */
  lemma TwoDigitField(n: nat)
    requires n < 60
    ensures IsTwoDigits(ZeroPad(n, 2)) && ValueOf(ZeroPad(n, 2)) == n
  {
    assert Pow10(2) == 100;
    ZeroPadValue(n, 2);
  }

  lemma ReadMinutes(s: nat)
    requires 0 < s < 3600
    ensures ParseClock(FormatDuration(Some(s))) == Some(s)
  {
    FormatDurationFields(s);
    ReadMinutesLabel(FormatDuration(Some(s)), s, s / 60, s % 60);
  }

  lemma ReadMinutesLabel(t: string, s: nat, m: nat, x: nat)
    requires x < 60 && m * 60 + x == s
    requires t == Decimal(m) + ":" + ZeroPad(x, 2)
    ensures ParseClock(t) == Some(s)
  {
    ReadClockTwo(m, x);
  }

  lemma ReadHours(s: nat)
    requires s >= 3600
    ensures ParseClock(FormatDuration(Some(s))) == Some(s)
  {
    FormatDurationFields(s);
    ReadHoursLabel(FormatDuration(Some(s)), s, s / 3600, s % 3600 / 60, s % 60);
  }

  lemma ReadHoursLabel(t: string, s: nat, h: nat, m: nat, x: nat)
    requires m < 60 && x < 60 && h * 3600 + m * 60 + x == s
    requires t == Decimal(h) + ":" + ZeroPad(m, 2) + ":" + ZeroPad(x, 2)
    ensures ParseClock(t) == Some(s)
  {
    ReadClockThree(h, m, x);
  }

  /** "m:ss" reads back as m * 60 + ss. */
  lemma ReadClockTwo(m: nat, x: nat)
    requires x < 60
    ensures ParseClock(Decimal(m) + ":" + ZeroPad(x, 2)) == Some(m * 60 + x)
  {
    TwoDigitField(x);
    DecimalValue(m);
    ParseTwo(Decimal(m), ZeroPad(x, 2));
  }

  /** "h:mm:ss" reads back as h * 3600 + mm * 60 + ss. */
  lemma ReadClockThree(h: nat, m: nat, x: nat)
    requires m < 60 && x < 60
    ensures ParseClock(Decimal(h) + ":" + ZeroPad(m, 2) + ":" + ZeroPad(x, 2)) == Some(h * 3600 + m * 60 + x)
  {
    TwoDigitField(x);
    TwoDigitField(m);
    DecimalValue(h);
    ParseThree(Decimal(h), ZeroPad(m, 2), ZeroPad(x, 2));
  }

  lemma ParseTwo(a: string, b: string)
    requires IsNumber(a) && IsTwoDigits(b)
    ensures ParseClock(a + ":" + b) == Some(ValueOf(a) * 60 + ValueOf(b))
  {
    ClockTwo(a, b);
    ParseFields(a + ":" + b, [a, b]);
  }

  lemma ParseThree(a: string, b: string, c: string)
    requires IsNumber(a) && IsTwoDigits(b) && IsTwoDigits(c)
    ensures ParseClock(a + ":" + b + ":" + c) == Some(ValueOf(a) * 3600 + ValueOf(b) * 60 + ValueOf(c))
  {
    ClockThree(a, b, c);
    ParseFields(a + ":" + b + ":" + c, [a, b, c]);
    ThreeFields(a, b, c);
  }

  lemma ThreeFields(a: string, b: string, c: string)
    requires IsNumber(a) && IsTwoDigits(b) && IsTwoDigits(c)
    ensures ClockValue([a, b, c]) == Some(ValueOf(a) * 3600 + ValueOf(b) * 60 + ValueOf(c))
  {
  }

  lemma ParseFields(t: string, parts: seq<string>)
    requires Split(t, ':') == parts
    ensures ParseClock(t) == ClockValue(parts)
  {
  }

  lemma ClockTwo(a: string, b: string)
    requires AllDigits(a) && AllDigits(b)
    ensures Split(a + ":" + b, ':') == [a, b]
  {
    DigitsExclude(a, ':');
    DigitsExclude(b, ':');
    SplitAfterFirst(a, b, ':');
    SplitNoSep(b, ':');
  }

  lemma ClockThree(a: string, b: string, c: string)
    requires AllDigits(a) && AllDigits(b) && AllDigits(c)
    ensures Split(a + ":" + b + ":" + c, ':') == [a, b, c]
  {
    DigitsExclude(a, ':');
    ClockTwo(b, c);
    assert a + ":" + b + ":" + c == a + [':'] + (b + ":" + c);
    SplitAfterFirst(a, b + ":" + c, ':');
  }

  /** Quotient and remainder are unique. */
  lemma DivModUnique(a: nat, d: nat, q: nat, r: nat)
    requires d > 0 && r < d && a == q * d + r
    ensures a / d == q && a % d == r
  {
    var q0, r0 := a / d, a % d;
    if q0 < q {
      Weighted(q0, r0, q, r, d);
    } else if q < q0 {
      Weighted(q, r, q0, r0, d);
    }
  }

  /** The hours, minutes and seconds of a duration recombine to it. */
  lemma ClockArithmetic(s: nat)
    ensures s % 3600 / 60 < 60
    ensures (s / 3600) * 3600 + (s % 3600 / 60) * 60 + s % 60 == s
    ensures s < 3600 ==> s / 3600 == 0 && s % 3600 == s
  {
    var h, r := s / 3600, s % 3600;
    var m, x := r / 60, r % 60;
    assert s == h * 3600 + r;
    assert r == m * 60 + x;
    assert s == (h * 60 + m) * 60 + x;
    DivModUnique(s, 60, h * 60 + m, x);
    if s < 3600 {
      DivModUnique(s, 3600, 0, s);
    }
  }

  // ---------------------------------------------------------------------
  // renderComments

  const MaxShownComments: nat := 50
  const MaxShownReplies: nat := 5

  /** The fields of a reply the list displays; `None` is an absent key. */
  datatype ReplyJson = ReplyJson(author: Option<string>, text: Option<string>)

  /** The fields of a comment the list displays. */
  datatype CommentJson = CommentJson(author: Option<string>, text: Option<string>, likeCount: Option<int>,
                                     replies: seq<ReplyJson>)

  datatype ShownReply = ShownReply(author: string, text: string)

  /** A displayed comment: avatar letter, author, text, likes, the reply
      count on its toggle, and the replies listed under it. */
  datatype ShownComment = ShownComment(avatar: char, author: string, text: string, likes: int,
                                       replyCount: nat, replies: seq<ShownReply>)

  /** `value || fallback` for a string. */
  function OrElse(value: Option<string>, fallback: string): string {
    if value.Some? && value.value != [] then value.value else fallback
  }

  function UpperChar(c: char): char {
    if 'a' <= c <= 'z' then (c as int - 'a' as int + 'A' as int) as char else c
  }

  function ShowReply(r: ReplyJson): ShownReply {
    ShownReply(OrElse(r.author, "Anonymous"), OrElse(r.text, ""))
  }

  function ShowReplies(rs: seq<ReplyJson>): (r: seq<ShownReply>)
    ensures |r| == |rs| && forall j :: 0 <= j < |rs| ==> r[j] == ShowReply(rs[j])
  {
    if rs == [] then [] else ShowReplies(rs[..|rs| - 1]) + [ShowReply(Last(rs))]
  }

  function ShowComment(c: CommentJson): ShownComment {
    var replies := if |c.replies| <= MaxShownReplies then c.replies else c.replies[..MaxShownReplies];
    ShownComment(UpperChar(OrElse(c.author, "U")[0]), OrElse(c.author, "Anonymous"), OrElse(c.text, ""),
                 c.likeCount.GetOr(0), |c.replies|, ShowReplies(replies))
  }

  /** renderComments: the first 50 comments in order, nothing for a missing
      or empty list. */
  function RenderComments(comments: Option<seq<CommentJson>>): (r: seq<ShownComment>)
    ensures comments.None? ==> r == []
    ensures comments.Some? ==>
      |r| == (if |comments.value| <= MaxShownComments then |comments.value| else MaxShownComments) &&
      forall i :: 0 <= i < |r| ==> r[i] == ShowComment(comments.value[i])
  {
    match comments
    case None => []
    case Some(cs) =>
      var shown := if |cs| <= MaxShownComments then cs else cs[..MaxShownComments];
      seq(|shown|, i requires 0 <= i < |shown| => ShowComment(shown[i]))
  }

  /** Each displayed comment lists at most its first five replies, counts
      all of them on its toggle, and falls back to "Anonymous", 'U' and 0. */
  lemma ShownCommentCaps(c: CommentJson)
    ensures var s := ShowComment(c);
      && |s.replies| == (if |c.replies| <= 5 then |c.replies| else 5)
      && (forall j :: 0 <= j < |s.replies| ==> s.replies[j] == ShowReply(c.replies[j]))
      && s.replyCount == |c.replies|
      && (c.author.None? || c.author == Some([]) ==> s.author == "Anonymous" && s.avatar == 'U')
      && (c.likeCount.None? ==> s.likes == 0)
  {
  }
}
