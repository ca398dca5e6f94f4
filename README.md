# Offline YouTube mirror — a Dafny model

The system keeps a local mirror of a few YouTube channels. It has three parts:

- `yt.py`, the downloader. For each channel it walks the playlist and skips:
  - videos whose bare title is among the base names of the files it already has (see "## Findings": its own files are never matched);
  - live videos;
  - downloads that left no file or an empty one.

  It files each video under `videos/` or `shorts/`: a short is taller than it
  is wide. For each downloaded video it saves up to 50 of the most-liked
  top-level comments, each with up to 120 replies, as numbered JSON files. It
  keeps an `index.json` of counters. Finally it deletes the oldest files once a
  channel holds more than `video_count`.
- `backend.py`, the server. It scans the channel folders into a catalogue of
  video records. It then serves:
  - a shuffled page of videos or of shorts;
  - a search over titles and channel names;
  - a single record;
  - the video file;
  - the comments of a video, read back from the numbered files.
- `static/script.js`, the browser client. It holds several paged feeds:
  - the videos grid;
  - the shorts feed, with prefetching as the viewer nears its end;
  - a random short when the shorts tab opens;
  - the search results.

  It also formats durations and renders comment lists with their display caps.

The model is split into these modules:

- `catalogue.dfy` (module `Catalogue`): the scan, the filters, the paging and the lookups of `backend.py`.
- `comment_store.dfy` (module `CommentStore`): the comment loader of `backend.py`.
- `downloader.dfy` (module `Downloader`): `download_comments`, `cleanup_old_videos` and the download loop of `yt.py`.
- `client.dfy` (module `Client`): the client state machine and its two pure helpers.
- `round_trip.dfy` (module `RoundTrip`): the names and fields one side writes and the other reads back.
- `text.dfy`, `sorting.dfy` and `wrappers.dfy`: Python's and JavaScript's string operations, a stable insertion sort, and `Option`.

The file system is modelled as data:

- A channel folder is a value holding its listings and its parsed `meta.json` files.
- A comment folder is its `top/` listing and its `replies/` subfolders.
- The downloader's writes are the list of files it creates, in order.

The loops of the source remain loops. Each loop method is proved equal to a
recursive function, and the lemmas are stated about that function.

The client's module globals are the fields of the class
`Client.FeedController`. Each asynchronous loader is split into two steps:

- a *begin* step: the guard, the busy flag and the request sent;
- a *done* step: the reply applied and the flag cleared.

Each step is a function on a value-level copy of the state (`FeedState`). Each
method is proved to perform its step and to keep the invariant `Valid()`:

- the busy flag is set exactly when a loader is in flight;
- the shorts navigator's list is a prefix of the loaded shorts;
- the short shown is the one at the navigator's index.

## Model

| member | source | states |
|---|---|---|
| `Catalogue.GetAllVideos` | backend.py:33-109 | The scan returns exactly `CatalogueOf(channels)`: channels in listing order, each one's videos folder then its shorts folder, files in listing order. |
| `Catalogue.ScanChannel` | backend.py:38-107 | A channel that is not a directory contributes nothing. Otherwise it contributes its video entries followed by its short entries. |
| `Catalogue.ScanFolder` | backend.py:44-74 | A folder yields one record per listed file that has a video extension and a parsed `meta.json` under its id, in listing order. |
| `Catalogue.CatalogueMembership` | backend.py:33-109 | A record is in the catalogue if and only if some directory channel lists, in the videos or the shorts folder, a file that yields that record. |
| `Catalogue.FolderMembership` | backend.py:46-74 | A record comes from a folder if and only if some listed file of that folder yields it. |
| `Catalogue.CatalogueRecordOrigin` | backend.py:47-72 | Every catalogued record has an origin file: listed in the folder of the record's own kind and ending in .mp4, .mkv or .webm. Its fields are the meta fields, with fallbacks: the extracted id, the base name, the channel folder name, and 0. |
| `Catalogue.FileEntryOrigin` | backend.py:47-72 | The record a file yields has the folder's kind, the file path `channel/folder/file` and the comments path `channel/comments/id`. |
| `Catalogue.RecordPathHasVideoExtension` | backend.py:47-67 | Every served file path ends in one of the three video extensions. |
| `Catalogue.SplitExtAppend` | backend.py:49 | `os.path.splitext` removes exactly the last `.ext` of a name whose base is not all dots. |
| `Catalogue.ExtractIdAfterLastBracket` | backend.py:52-55 | When both brackets occur, the id is the text after the last `[`, with trailing `]` and then surrounding whitespace stripped. |
| `Catalogue.OfKind` | backend.py:115 | The kind filter keeps exactly the records of that kind, each as often as the catalogue holds it. |
| `Catalogue.SearchFilter` | backend.py:157-161 | The search keeps exactly the records whose lower-cased title or channel contains the lower-cased query, each as often as the catalogue holds it. The empty query keeps everything. |
| `Catalogue.PageShape` | backend.py:121 | For non-negative skip and limit, a page is the contiguous run starting at `skip`, of length `min(limit, max(0, n - skip))`. |
| `Catalogue.PageElements` | backend.py:121 | Whatever skip and limit are, including negative ones, a page only holds elements of the list. |
| `Catalogue.PagesCover` | backend.py:121 | The first k pages of size `limit` together are the list's first `k * limit` elements. |
| `Catalogue.PagesCoverAll` | backend.py:121 | `ceil(n / limit)` consecutive pages reassemble the whole list. |
| `Catalogue.KindPagesReturnEveryRecord` | backend.py:112-149 | Over one shuffle, paging through videos or shorts returns every record of that kind exactly as often as the catalogue holds it, and no other record. |
| `Catalogue.SearchPagesReturnEveryMatch` | backend.py:151-172 | Over one shuffle, paging through a search returns every matching record exactly as often as the catalogue holds it, and no other record. |
| `Catalogue.Items` | backend.py:122-129 | One item per record, in order, carrying its id, title, channel, duration, placeholder thumbnail and type. |
| `Catalogue.GetKindPage` | backend.py:112-149 | The page endpoints return the items of the requested slice of a shuffle of the records of that kind; every item has that kind's type name. |
| `Catalogue.SearchVideos` | backend.py:152-176 | A search page holds the items of a slice of a shuffle of the matching records; each is the item of a catalogued record that matches the query. |
| `Catalogue.FirstIndex` | backend.py:258-260 | The first position satisfying a predicate, or None if and only if no position does. |
| `Catalogue.GetVideoInfo` | backend.py:254-262 | 404 "Video not found" if and only if no record has the id. Otherwise the first record with that id. |
| `Catalogue.GetVideoFile` | backend.py:179-189 | 404 "Video not found" if and only if no record with the id has an existing file. Otherwise the first such record's existing path under the videos root. |
| `CommentStore.NameOrder` | backend.py:213 | The order `sorted` puts file names in (code-point order) is total and antisymmetric. |
| `CommentStore.Normalize` | backend.py:222-223 | `like_count` is copied from `likes` only when it is absent. No other key changes, and an object without `likes` is unchanged. |
| `CommentStore.SortedListingOrdered` | backend.py:213 | The sorted listing is ordered and holds only listed names. |
| `CommentStore.LoadAllSources` | backend.py:212-246 | Each loaded comment comes from one listed `.json` file that parsed to an object. Its fields are that file's normalised object, and the files used are a subsequence of the sorted listing. |
| `CommentStore.CommentsInNameOrder` | backend.py:212-246 | The comments come back in file-name order, one per top-level `.json` file that loads. |
| `CommentStore.FirstMatch` | backend.py:197-201 | The loop's stopping index is the first record with the video id, or None when no record has it. |
| `CommentStore.LoadTopFile` | backend.py:215-244 | One top-level file loads as its normalised object with its replies. A file that is not `.json`, does not parse to an object, or has an unsplittable name while `replies/` exists is skipped. |
| `CommentStore.LoadReplyFolder` | backend.py:230-241 | The loop over a replies folder yields the specified replies of its files in sorted name order. |
| `CommentStore.LoadReplyKept` | backend.py:232-239 | A reply file is kept if and only if it is a `.json` file that parses to an object, or to an array or string on which the guard `'likes' in reply and 'like_count' not in reply` is false. An object is served normalised; an array or string is served unchanged. |
| `CommentStore.LoadRepliesFromFiles` | backend.py:230-241 | Every reply served is what one of the folder's files loads to, and there are no more replies than files. |
| `CommentStore.LoadRepliesAll` | backend.py:230-241 | When every file of the folder loads, none is dropped. |
| `CommentStore.LoadComments` | backend.py:207-246 | The loaded list is exactly the specified `CommentsOf` of the folder; a folder without `top/` gives no comments. |
| `CommentStore.GetComments` | backend.py:192-251 | 404 "Comments not found" when no record has the id or its comments folder is missing. Otherwise the id with the comments of the first matching record's folder. |
| `Downloader.ReplyParent` | yt.py:229-230 | A comment is top-level if and only if its parent key is absent, null or "root"; otherwise it replies to that parent id. |
| `Downloader.PartitionLossless` | yt.py:225-235 | The partition neither loses nor duplicates a comment. Each top-level comment occurs among the top-level comments as often as in the input, and each reply as often among its parent's replies. Only top-level comments are top-level, and each group only holds replies to its parent. |
| `Downloader.Partition` | yt.py:225-235 | The loop yields the top-level comments in input order and groups that are exactly the non-empty reply lists per parent. |
| `Downloader.LookupGroups` | yt.py:259-260 | `replies_by_parent.get(id, [])` is the replies to that id, or nothing for a comment without an id. |
| `Downloader.Take` | yt.py:241 | `[:n]` is the prefix of length `min(len, n)`. |
| `Downloader.SortByLikesOrdered` | yt.py:238 | The like sort is a permutation in non-increasing like order. |
| `Downloader.SortByLikesStable` | yt.py:238 | The sort is stable: comments with equal likes keep their input order. |
| `Downloader.SelectTopMostLiked` | yt.py:237-241 | The saved top-level comments are in non-increasing like order and are all top-level. There are exactly 50 of them when more exist, and no comment left out has more likes than any saved one. |
| `Downloader.ReplyFilesIndex` | yt.py:262-271 | Reply j (from 1) of comment n is written as reply file `(n, j)` with that reply's saved fields. |
| `Downloader.PlanCounts` | yt.py:243-279 | The plan writes one top-level file per saved comment and as many reply files as the saved replies total. |
| `Downloader.PlanTopFiles` | yt.py:246-256 | Top-level file n is written if and only if `start < n <= start + count`, and it holds the fields of saved comment `n - start`. |
| `Downloader.PlanReplyFiles` | yt.py:256-272 | Reply file `(n, j)` is written if and only if comment n is in the plan and j is at most its saved-reply count. It holds the fields of that reply. |
| `Downloader.FileNamesDistinct` | yt.py:151-167 | Two written files with the same relative path are the same file: same kind, comment number and reply number. |
| `Downloader.SaveReplies` | yt.py:262-272 | The reply loop writes exactly the reply files of the given replies. |
| `Downloader.SaveCommentReplies` | yt.py:259-272 | For one comment, the files written are those of its first 120 replies. |
| `Downloader.SaveComments` | yt.py:243-275 | The save loop writes exactly the plan. The counters end at `start + count` and `repliesStart + total saved replies`. |
| `Downloader.SaveFetched` | yt.py:222-281 | For a non-empty fetch, the result is the plan of the selected comments and the updated index; `has_more` holds if and only if 50 were kept. |
| `Downloader.SavedCounters` | yt.py:243-279 | The written counters grow by exactly the numbers of top-level and reply files written. At most 50 top-level files are written, and `has_more` holds if and only if there were at least 50 top-level comments. |
| `Downloader.DownloadComments` | yt.py:169-296 | The outcome is one of four: existing comments stop everything; failed attempts give up; an empty fetch saves the stored or default counters; otherwise the plan is saved. |
| `Downloader.StampOrder` | yt.py:38 | Sorting `(mtime, path)` tuples is a total, antisymmetric order. |
| `Downloader.Glob` | yt.py:30-35 | The glob loop collects the non-hidden regular files of a folder with their times, in listing order. |
| `Downloader.CleanupKeepsNewest` | yt.py:38-63 | For a non-negative count, cleanup removes exactly the `max(0, n - count)` oldest files, oldest first. It keeps `min(n, count)` files, and every removed file is no newer than every kept one. |
| `Downloader.CleanupNegativeCount` | yt.py:44-85 | A negative count removes every file. It then ends with an escaping IndexError, because the error handler indexes past the end again. |
| `Downloader.CleanupOldVideos` | yt.py:27-87 | The method performs exactly the specified cleanup. |
| `Downloader.IsShortIff` | yt.py:380 | A video is a short if and only if width and height are both present and non-zero and the height exceeds the width. |
| `Downloader.AsWrittenMissesOwnFile` | yt.py:370 | The source's already-downloaded test does not recognise the file the download itself wrote. |
| `Downloader.CorrectedFindsOwnFile` | yt.py:370 | The corrected test, on the output base name, recognises that file. |
| `Downloader.ProcessKind` | yt.py:348-413 | A counted video is not live, passes the skip test in use, and has a non-empty output file. With the test as written, that means its bare title is not among the downloaded base names. It is filed as a short if and only if it is taller than wide. |
| `Downloader.RerunCountsOwnFileAgain` | yt.py:343-415 | On a re-run over a folder that already holds a video's own `title [id].ext`, the loop as written counts that video again; with the corrected test it is skipped. |
| `Downloader.RunBound` | yt.py:343-415 | For either skip test, the loop never counts beyond `video_count` and only appends. Every video it counts is one its entry processed to. |
| `Downloader.DownloadChannel` | yt.py:343-415 | For either skip test, the loop yields exactly the specified run; `downloaded_count` is the number of videos counted and at most `max(0, video_count)`. With `AsWritten` it is the loop of the source. |
| `Client.InitialConsistent` | static/script.js:3-10 | The initial globals satisfy the client invariant. |
| `Client.LoaderGuards` | static/script.js:81-240 | Each content loader sends a request if and only if it is not blocked: by the busy flag, or, for "more", by the has-more flag. It then sends the request built from the page counters and 20/10 and sets the flag; blocked, it changes nothing. |
| `Client.OneContentFetch` | static/script.js:82-83 | While one content loader is in flight no other one starts: they share the busy flag. |
| `Client.VideosPageApplied` | static/script.js:103-189 | A non-empty videos page is appended and advances the page and the has-more flag. An empty one stops "load more" but not the initial load. |
| `Client.ShortsPageApplied` | static/script.js:118-235 | A non-empty shorts page is appended and advances the page and the has-more flag. An empty one changes nothing but the busy flag. |
| `Client.FailureKeepsFeeds` | static/script.js:123-240 | A failed load clears the busy flag and changes nothing else; every load ends with the flag clear. |
| `Client.ContentStepsConsistent` | static/script.js:81-240 | Every loader step keeps the invariant. Loaded shorts are only ever extended. |
| `Client.NavGrows` | static/script.js:119 | Appending shorts keeps the navigator's list a prefix of the loaded shorts. |
| `Client.FindIndex` | static/script.js:315 | `findIndex`: the first position with the id, or -1 if and only if none has it. |
| `Client.PresentConsistent` | static/script.js:321 | Showing the short at the index keeps the invariant. |
| `Client.OpenShortsModalIndex` | static/script.js:309-321 | An empty list falls back to the loaded shorts. If that list is empty too, nothing is shown. Otherwise an in-range short is shown: the first one with the clicked id when the list has one, and the first short when it has none. |
| `Client.OpenShortsFromArray` | static/script.js:309-321 | Opening from the navigator keeps the index, after the same fallback, and shows the short at it when the index is in range. |
| `Client.OpenShortsConsistent` | static/script.js:301-321 | Opening the modal keeps the invariant. |
| `Client.NavigationInRange` | static/script.js:423-452 | Next and previous move the index by one when they can and keep it inside the loaded shorts. The short shown is the one at the new index. |
| `Client.NextShortPrefetch` | static/script.js:434-437 | After a move, shorts are prefetched if and only if the new index is within five of the end and more exist. The next shorts page is then requested unless a load is in flight. |
| `Client.NavigatorConsistent` | static/script.js:423-452 | Next and previous keep the invariant. |
| `Client.CloseResets` | static/script.js:459-468 | Closing the modal empties the navigator, returns to the videos tab and resets the search through the `window.switchTab` wrapper. The feeds are unchanged. |
| `Client.CeilDiv` | static/script.js:63 | `Math.ceil(n / d)` is the least k with `k * d >= n`. |
| `Client.RandomIndex` | static/script.js:74 | `Math.floor(Math.random() * n)` lies in `0..n-1` for a non-empty list. |
| `Client.RandomBatchApplied` | static/script.js:53-78 | A first batch of shorts replaces the loaded shorts and sets the page to `ceil(len / 10)` and the has-more flag. A random short from it is then shown. |
| `Client.ShowRandomConsistent` | static/script.js:72-78 | Showing a random loaded short keeps the invariant. |
| `Client.RandomStepsConsistent` | static/script.js:53-79 | Both steps of `openRandomShort` keep the invariant. |
| `Client.SearchSameQuery` | static/script.js:567-569 | Repeating the current query changes nothing and sends nothing. |
| `Client.SearchNewQuery` | static/script.js:569-576 | A new query becomes current, resets the page and clears the shown results. |
| `Client.SearchFirstPage` | static/script.js:573-578 | An empty query sends nothing. A new non-empty one sends page 0 of 20 unless a search is in flight. |
| `Client.FirstPageRequest` | static/script.js:595-605 | On page 0 a non-blank query is requested from skip 0 unless a search is in flight. |
| `Client.SearchPageApplied` | static/script.js:612-643 | A non-empty page is appended, advances the page, and shows "more" if and only if it is full. An empty or failed one on page 0 clears the results. Either way the busy flag ends clear and the query is unchanged. |
| `Client.StaleSearchStarts` | static/script.js:567-580 | A new query typed while a search is in flight resets the search feed without sending a request. |
| `Client.StaleSearchLands` | static/script.js:612-623 | The reply still in flight is then shown as the new query's first page, and "more" asks for the new query from skip 20. |
| `Client.StaleSearchApplied` | static/script.js:567-643 | Together: a full page of an old query is shown under a new query; see Left out. |
| `Client.FormatDurationFields` | static/script.js:533-543 | A positive duration below an hour reads `m:ss`, and `h:mm:ss` from an hour on, with the fields recombining to the duration. |
| `Client.FormatDurationRoundTrip` | static/script.js:533-543 | Every non-negative duration's label reads back as that duration. |
| `Client.ReadZero` | static/script.js:534 | A missing or zero duration shows "0:00", which reads back as 0. |
| `Client.ShowReplies` | static/script.js:493-501 | One shown reply per reply, in order, with "Anonymous" and "" for missing fields. |
| `Client.RenderComments` | static/script.js:470-520 | A missing or empty list shows nothing. Otherwise the shown comments are the first `min(len, 50)` comments, in order. |
| `Client.ShownCommentCaps` | static/script.js:480-515 | A shown comment lists its first `min(len, 5)` replies but counts all of them. A missing author shows as "Anonymous" with avatar 'U', and missing likes as 0. |
| `Client.FeedController.constructor` | static/script.js:3-10 | The controller starts in the initial state and satisfies the invariant. |
| `Client.FeedController.LoadContent` | static/script.js:81-94 | Begin step of `loadContent`: the request and the new state are those of the function step. The invariant is kept. |
| `Client.FeedController.LoadContentComplete` | static/script.js:100-138 | Done step of `loadContent`: applies the reply as specified. The invariant is kept. |
| `Client.FeedController.LoadMoreVideos` | static/script.js:142-159 | Begin step of `loadMoreVideos`, as specified. |
| `Client.FeedController.LoadMoreVideosComplete` | static/script.js:165-210 | Done step of `loadMoreVideos`, as specified. |
| `Client.FeedController.LoadMoreShorts` | static/script.js:214-223 | Begin step of `loadMoreShorts`, as specified. |
| `Client.FeedController.LoadMoreShortsComplete` | static/script.js:229-240 | Done step of `loadMoreShorts`, as specified. |
| `Client.FeedController.OpenShortsModal` | static/script.js:301-322 | `openShortsModal` on the fields, as specified; the invariant is kept. |
| `Client.FeedController.ShowRandomShort` | static/script.js:72-78 | Shows a random loaded short, as specified. |
| `Client.FeedController.OpenRandomShort` | static/script.js:53-59 | Begin step of `openRandomShort`: fetches 50 shorts only when none are loaded. |
| `Client.FeedController.OpenRandomShortComplete` | static/script.js:60-78 | Done step of `openRandomShort`, as specified. |
| `Client.FeedController.NextShort` | static/script.js:423-439 | `nextShort` on the fields: the new state is the function step, and whether it prefetched and what it requested are reported. |
| `Client.FeedController.PreviousShort` | static/script.js:441-452 | `previousShort` on the fields, as specified. |
| `Client.FeedController.SwitchTab` | static/script.js:684-692 | The `window.switchTab` wrapper: leaving for a tab other than search resets the search page and query. It reports whether a random short is opened. The invariant is kept. |
| `Client.FeedController.CloseShortsModal` | static/script.js:459-468 | `closeShortsModal` on the fields, as specified. |
| `Client.FeedController.StartQuery` | static/script.js:569-571 | Sets the new query and resets the page and the shown results; nothing else changes. The invariant is kept. |
| `Client.FeedController.PerformSearch` | static/script.js:567-580 | `performSearch` on the fields: the request and the new state of the function step. The invariant is kept. |
| `Client.FeedController.LoadSearchResults` | static/script.js:595-606 | Begin step of `loadSearchResults`, as specified. The invariant is kept. |
| `Client.FeedController.LoadSearchResultsComplete` | static/script.js:612-643 | Done step of `loadSearchResults`, as specified. The invariant is kept. |
| `RoundTrip.VideoIdRoundTrip` | backend.py:49-55 | For an id without brackets or surrounding whitespace, the server extracts it from the name `title [id].ext` that the downloader wrote. |
| `RoundTrip.RepliesFolderRoundTrip` | backend.py:228 | From `c_NNNNN.json` the server derives the folder `c_NNNNN` that the replies were written to. Below 100000 its digits read back as the comment's number. |
| `RoundTrip.NameOrderIsNumberOrder` | yt.py:154 | Below 100000, zero-padded file names compare as their numbers do. |
| `RoundTrip.TopNames` | yt.py:154 | The top-level names after k comments are `c_00001.json` .. in number order. |
| `RoundTrip.TopNamesSorted` | yt.py:154 | Those names are sorted under the listing order. |
| `RoundTrip.TopFilesReadInNumberOrder` | backend.py:213 | Whatever order the directory lists them in, the server reads the top-level files in the order the downloader numbered them. |
| `RoundTrip.LikesRoundTrip` | backend.py:222-223 | The count saved under `likes` is served under `like_count`, and every saved field is served unchanged. |
| `Text.Split` | backend.py:52 | `str.split(sep)` gives at least one piece, none containing the separator, and joining them back gives the string. |
| `Text.LastIndex` | backend.py:52 | The position of the last occurrence of a character, or None if and only if it does not occur. |
| `Text.StripIdempotent` | backend.py:55 | Stripping twice is stripping once. |
| `Sorting.SortSorted` | backend.py:213 | Insertion sort under a total preorder yields an ordered list. |
| `Sorting.Sort` | yt.py:238 | The sort returns a permutation of its input. |
| `Sorting.SortedUnique` | backend.py:213 | Under an antisymmetric order, two sorted permutations of one list are equal. |

## Left out

- Web and browser plumbing is not modelled:
  - DOM rendering, `escapeHtml`, `formatDate`, the video modal, player actions, and keyboard and touch wiring;
  - the `load-more` button.

  Rendering is reduced to the lists of items shown.
- `fetch`, `setTimeout` and `Math.random` are not modelled as calls. Replies are parameters of the done steps, and the random number is a parameter in `[0, 1)`.
- Concurrency is modelled only by splitting each loader into a begin and a done step, which callers may interleave with other steps. The event loop, the timers and overlapping replies of one loader are not modelled. `nextShort` runs its prefetch test after `await openShortsModal(...)` (static/script.js:432-435); the model runs it in the same step as the move, so a `loadMoreShorts` reply, another `nextShort` or `closeShortsModal` landing during that await is not modelled.
- The shorts search-result click (static/script.js:665-675) is not modelled. Its timer-delayed `shortsData = [item]` path is outside the navigator model.
- `/api/content` has no handler in backend.py, so the client's requests are modelled as requests. The server side of them is the page functions.
- The shuffle is modelled as an arbitrary permutation given as a parameter (`IsShuffleOf`).
- FastAPI routing, CORS, HTTP status plumbing other than the 404 details, and `FileResponse` media types are not modelled.
- yt-dlp itself is not modelled:
  - the extraction, download and comment fetch;
  - the `DOWNLOAD_COMMENTS` switch;
  - the five-attempt retry loop with `time.sleep`, modelled as a single outcome, fetched or failed;
  - the classification of error messages.

  File names are taken as yt-dlp's sanitisation leaves them.
- The live check collapses `is_live` and the `live_status` values `is_live`/`upcoming` into one flag.
- `index.json` and `meta.json` are only partly modelled:
  - The `size_bytes` walk, `last_updated` from `time()` and the `meta.json` contents are not modelled; only the three counters of `index.json` are.
  - A stored index is taken to carry all three keys, and counters are naturals.
- Cleanup's deletion of comment folders by title match is not modelled. Only the video files it removes are.
- `get_downloaded_videos` is modelled as the set of base names, not its map to times and paths, since only membership is used.
- Modification times are integers rather than floats.
- Strings are sequences of characters. Lower-casing, `toUpperCase` and whitespace stripping cover ASCII only.
- JSON `null` and an absent key are modelled as one case (`None`), except for a comment's `parent`, where the two differ in the source. A null `like_count` compared in the sort, which Python would reject, is modelled as 0.
- Parsed JSON is modelled only as deep as the server looks. Array elements and object values are strings, integers, null or one opaque "other" value; numbers, booleans and null at the top level of a file are one case.
- `Client.StaleSearchApplied`: the model follows the code. A reply that arrives after the query changed is applied to the new query; the code has no check against that.

## Findings

| source | as written | input that shows it | evidently intended | confidence | as-written member | corrected member |
|---|---|---|---|---|---|---|
| yt.py:370 | the skip test checks whether the bare `title` is among the downloaded base names, but files are saved as `title [id].ext` (yt.py:391), whose base name is `title [id]` | a channel re-run after `Song [abc].mp4` was saved: `Song` is not in `{"Song [abc]"}`, so the video is counted toward `video_count` again, and `ydl_download.download` and `download_comments` are called for it again; `download_comments` stops at its `top/` check when comments were saved (`Downloader.RerunCountsOwnFileAgain` shows both loops on such a re-run) | check the base name `title [id]` the output template produces | not executed | `Downloader.AsWrittenMissesOwnFile` | `Downloader.CorrectedFindsOwnFile` |
