# Comment crawl and emoji sampler, modelled in Dafny

This project models two parts of a YouTube comment-collection repository and
proves properties of the model.

**The quota-bounded, resumable comment crawl** (`src/data_acquisition.py`).
A session walks a ledger of videos, given as `{videoId, done, nextPageToken}`
entries. For every unfinished video it harvests the comment threads page by
page from the stored cursor. Every page request costs one unit of a daily
budget: 9900 units, or 10 when debugging. A thread declaring more than five
replies gets its replies fetched page by page, and those requests are charged
to the same budget. Smaller threads have their replies embedded in the thread
page, at no cost. Records are appended to an NDJSON comment file. The model
has two layers:

- Module `CommentCrawl` gives the reference semantics as recursive functions:
  - `WalkReplies`;
  - `ItemStep` and `ProcessItems`;
  - `WalkThreads` and `Finish`;
  - `VisitEntry` and `Drive`.
- Class `Acquisition.Crawler` holds the comment file (`sink: seq<Record>`) and
  the ledger (`videos: seq<Video>`). Its methods are the source's loops. Each
  one is proved to return exactly what the reference function returns and to
  append exactly the records it writes.

The remote service is a parameter. It is a map from (video id, cursor) to a
thread page and from (comment id, cursor) to a reply page. Each answer is a
page, a quota error (`QuotaExceeded`) or any other failure (`Failed`). A
request the map does not answer fails. The source signals exhaustion with the
sentinel `float('inf')`. The model uses the variant `Exhausted` of
`Usage = Used(n) | Exhausted` instead.

The model keeps these behaviours of the code as written:

- A harvest that stops cleanly at a page boundary with pages left reports
  **0** units spent. See `BoundaryStopReportsZero`.
- The driver's quota check comes before the done flag is set. A video whose
  harvest completes on exactly the last units of the day stays unfinished.
  Its stored cursor is then `None`, so the entry reads as never started and
  the next session re-harvests it from the first page. See
  `QuotaMetLeavesPending`.
- For embedded replies, the reply count grows by the declared
  `totalReplyCount`, not by the number of replies written. See
  `ReplyThreshold`.
- A failing thread-page request returns the cursor of the page being
  processed, with `done = false`, and the driver stores it. See
  `FetchErrorsKeepCursor` and `VisitStoresCursor`. A failing reply-page
  request (other than a quota error) only ends that reply walk, and the page
  loop goes on.
- A reply walk that meets or exhausts the budget also returns that cursor, so
  the whole page is fetched and written again on resume. A quota error in a
  reply walk makes the harvest report exhaustion. See `ReplyThreshold` and
  `ReplyStopRefetchesPage`.
- Resuming is therefore not the same as harvesting once with the combined
  budget. The resumed harvest walks the stopping thread's replies again from
  the first reply page (`src/data_acquisition.py:328`) and pays for them
  again. A thread with more reply pages than one session's budget never gets
  past its early reply pages. Its entry is left exactly as it was, so every
  later session repeats the same walk and the video never finishes. See
  `ResumeRepeatsReplies`.
- Every answered request is charged one unit, so the units reported equal
  the pages fetched, except on a quota error and at the boundary stop above.
  A boundary stop has fetched its whole allotment yet reports 0, and the
  driver offers the next video the same budget again. A session can
  therefore fetch more pages than the daily quota. Module `Requests` counts
  the pages independently of the units; see `ThreadPagesUnits`,
  `BoundaryStopRestoresBudget` and `SessionOverspends`.
- With a budget of zero or less and no starting cursor, nothing is fetched
  and the harvest reports the video complete. See `NoBudget`.
- The loop ends on `not next_page_token`, which treats an empty cursor like a
  missing one. The final check at `src/data_acquisition.py:291` compares only
  with `None`. The model keeps both: `Falsy` for the first, `Some?` for the
  second.

The driver stores the returned cursor (`src/data_acquisition.py:427`),
checks the budget (`:430`), and only then sets `done` (`:445-446`). The model
follows that order.

The ledger operations are modelled as well:

- `add_video` strips the id with Python's whitespace set and appends a fresh
  entry unless the id is present.
- `get_videos_progress` counts finished, resumable and unstarted entries.
- `save_playlist_videos` builds a fresh ledger from a paginated playlist
  listing.
- `save_channel_playlists` streams a channel's playlists into a JSON array
  file. A failing request leaves the array unclosed.

These listings have no quota. Request k is answered by `pages[k]`, and a
request past the end fails.

**The emoji sampler** (`src/emoji_sampler.py`).

- `Fenwick.FenwickTree` is a Fenwick (binary indexed) tree over `array<int>`,
  with the summed entries as ghost data. `i & -i` is `LowBit(i)`, the largest
  power of two dividing `i`. The proofs cover:
  - the linear-time construction;
  - point update;
  - prefix query;
  - binary-lifting search.
- `EmojiSampler.Sampler` samples keys without replacement, weighted by their
  remaining counts. The random draw is a parameter `choice` with
  `1 <= choice <= total`. A ghost history of draws carries the
  sampling-without-replacement invariant.
- The comment at `src/emoji_sampler.py:38` calls the initial mask the largest
  power of two at most n. `1 << n.bit_length()` is in fact the smallest power
  of two strictly greater than n. `BitLengthBound` states this. The search is
  correct either way, because the bound check at `:42` rejects the first
  step.

## Model

| member | source | states |
|---|---|---|
| Fenwick.LowBit | src/emoji_sampler.py:15 | `i & -i` for i > 0: a power of two between 1 and i |
| Fenwick.Decompose | src/emoji_sampler.py:15 | i is `i & -i` times an odd number, so `i & -i` is the largest power of two dividing i |
| Fenwick.ParentLowBit | src/emoji_sampler.py:15 | the parent `i + (i & -i)` has a low bit at least twice as large, so each upward step at least doubles |
| Fenwick.BetweenParent | src/emoji_sampler.py:26 | no node strictly between i and its parent covers i, so the update loop visits exactly the nodes whose range holds the entry |
| Fenwick.NodeFromChildren | src/emoji_sampler.py:10-19 | a node's range sum is its own entry plus the totals of the children that hand it their sums during construction |
| Fenwick.ChildrenTile | src/emoji_sampler.py:10-19 | the children of node i tile its range below i, so the construction loop accumulates exactly the node's sum |
| Fenwick.FenwickTree.constructor | src/emoji_sampler.py:5-19 | afterwards node j holds data[j - (j & -j) .. j] for every 1 <= j <= n, node 0 holds 0, and the tree has n + 1 cells |
| Fenwick.FenwickTree.Update | src/emoji_sampler.py:21-26 | the tree stays valid and entry i grows by delta, all other entries unchanged; an index at or past n changes nothing |
| Fenwick.SumUpdate | src/emoji_sampler.py:21-26 | after changing one entry, exactly the prefix sums that include it change, by the difference |
| Fenwick.FenwickTree.Query | src/emoji_sampler.py:28-34 | returns data[0] + ... + data[i], and 0 for any i < 0 |
| Fenwick.BitLengthBound | src/emoji_sampler.py:38 | `1 << n.bit_length()` is the smallest power of two strictly greater than n: it exceeds n, and for n > 0 half of it is at most n |
| Fenwick.LowBitOfLift | src/emoji_sampler.py:41-42 | during the lifting search, the candidate node idx + mask covers exactly the mask entries after idx |
| Fenwick.FenwickTree.FindPrefixIndex | src/emoji_sampler.py:36-46 | with non-negative entries, returns the smallest index whose inclusive prefix sum reaches target (n if none does); for 1 <= target <= total that index is below n and its entry is positive |
| Fenwick.SearchEnd | src/emoji_sampler.py:36-46 | where the search stops, no shorter prefix reaches the target, and a target within the total is met at a positive entry |
| Fenwick.SumMonotone | src/emoji_sampler.py:36-46 | with non-negative entries, prefix sums never decrease, which makes the search's smallest index well defined |
| EmojiSampler.Sampler.constructor | src/emoji_sampler.py:50-55 | keys and counts in table order, total is the sum of the counts, nothing drawn, and the counting invariant holds |
| EmojiSampler.Sampler.HasMore | src/emoji_sampler.py:65-66 | true exactly when the remaining counts sum to a positive number |
| EmojiSampler.Sampler.DecreaseEmoji | src/emoji_sampler.py:75-77 | the count at idx drops by one, all others unchanged, and the total drops by one |
| EmojiSampler.Sampler.Sample | src/emoji_sampler.py:68-73 | with draws left, returns the key whose cumulative-count interval holds choice, takes one unit from that key only, lowers the total by one and keeps the counting invariant; with none left, returns None and changes nothing |
| EmojiSampler.TakeOne | src/emoji_sampler.py:68-77 | taking one unit from a key with a positive count and recording it as drawn keeps the sampling-without-replacement invariant |
| EmojiSampler.Sampler.Next | src/emoji_sampler.py:60-63 | stops (None) exactly when no draw is left, else behaves as Sample |
| EmojiSampler.ZeroSumAllZero | src/emoji_sampler.py:65-66 | a zero total over non-negative counts means every count is zero |
| EmojiSampler.BagCount | src/emoji_sampler.py:51-52 | the initial frequency table, as a multiset, holds each key exactly its frequency times |
| EmojiSampler.Sampler.DrainedDrawsEveryUnit | src/emoji_sampler.py:60-77 | once nothing is left, the draws are exactly the frequency table as a multiset, sum(frequencies) draws in all |
| Checkpoint.TrimStartSpaces | src/data_acquisition.py:516 | the left half of `str.strip` drops exactly the leading whitespace: what is left starts with no whitespace and everything dropped is whitespace |
| Checkpoint.TrimEndSpaces | src/data_acquisition.py:516 | the right half drops exactly the trailing whitespace: what is left ends with no whitespace and everything dropped is whitespace |
| Checkpoint.StripEnds | src/data_acquisition.py:516 | a stripped id is empty or neither starts nor ends with whitespace |
| Checkpoint.StripSlice | src/data_acquisition.py:516 | the stripped id is a slice of the input with only whitespace before and after it |
| Checkpoint.StripShape | src/data_acquisition.py:516 | the stripped id is the slice of the input between whitespace-only ends, and the slice neither starts nor ends with whitespace |
| Checkpoint.ProgressPartition | src/data_acquisition.py:489-497 | every entry falls in exactly one of done / half-way / undone, so the counts sum to the ledger length |
| Checkpoint.AddedFacts | src/data_acquisition.py:516-527 | adding keeps every existing entry in place, grows the ledger by at most one, leaves the id present, keeps ids unique, and is idempotent |
| CommentCrawl.DailyQuota | src/data_acquisition.py:394 | a session's budget never exceeds 9900 units |
| CommentCrawl.ReplyWalkBounds | src/data_acquisition.py:333-367 | a reply walk reports units between what was spent before and its budget, reports exactly the replies it wrote, writes only replies, and given no budget fetches nothing |
| CommentCrawl.ProcessItems | src/data_acquisition.py:258-283 | the thread loop over a page never lowers the units spent |
| CommentCrawl.ItemStepFacts | src/data_acquisition.py:258-283 | each thread writes exactly one top-level record; it either keeps the loop going within budget or stops the harvest unfinished with the page's own cursor |
| CommentCrawl.ProcessItemsFacts | src/data_acquisition.py:258-283 | the thread loop keeps those facts over a page: the comment count grows by the top-level records written |
| CommentCrawl.ReplyThreshold | src/data_acquisition.py:263-283 | a thread with at most 5 declared replies costs nothing, writes its embedded replies after it and adds the declared count; a larger one writes the replies of a walk from the first reply page within the budget left, and the harvest stops exactly when that walk hits a quota error (reporting exhaustion) or meets the budget (reporting the units spent), with the page's own cursor; otherwise the walk's units and replies are added |
| CommentCrawl.ProcessItemsAppend | src/data_acquisition.py:258-283 | the thread loop over two runs of threads is the loop over the first, then over the second from where it left off |
| CommentCrawl.WalkThreadsFacts | src/data_acquisition.py:219-297 | every harvest reports at most its budget, a completed one has no cursor and a real count, an exhausted one is never complete, and the comment count equals the top-level records written |
| CommentCrawl.NoBudget | src/data_acquisition.py:219-297 | with no budget nothing is fetched or written; without a cursor the harvest reports the video complete, with one it hands the cursor back |
| CommentCrawl.BoundaryStopReportsZero | src/data_acquisition.py:291-293 | a harvest that spends its last unit on a page with more pages after it returns the next cursor, unfinished, reporting 0 units |
| CommentCrawl.LastPageCompletes | src/data_acquisition.py:285-297 | a page without a cursor ends the harvest complete, reporting the units spent and no cursor |
| CommentCrawl.ReplyStopRefetchesPage | src/data_acquisition.py:267-276 | when thread k's reply walk meets the budget or hits a quota error, the harvest ends there: unfinished, with the cursor of the page being processed, reporting the units spent or exhaustion, and counting the thread and its replies |
| CommentCrawl.FetchErrorsKeepCursor | src/data_acquisition.py:299-311 | a failing thread request ends the harvest unfinished with the cursor it asked for and the units spent so far; a quota error does the same with exhaustion |
| Requests.ReplyPagesUnits | src/data_acquisition.py:333-367 | a reply walk fetches no more pages than its budget, and reports exactly one unit per page fetched unless it ends on a quota error |
| Requests.ItemPagesUnits | src/data_acquisition.py:263-276 | one thread's units are exactly the reply pages it fetches, within the budget |
| Requests.PagesOfItemsUnits | src/data_acquisition.py:258-283 | over a page, the units the thread loop adds are exactly the reply pages it fetches, within the budget |
| Requests.ThreadPagesUnits | src/data_acquisition.py:219-297 | a harvest fetches no more pages than its budget; it reports exactly the pages fetched, except on a quota error and when it used up the whole budget with a cursor left, where it reports 0, unfinished |
| Requests.BoundaryStopUsesBudget | src/data_acquisition.py:291-293 | a harvest that stops at a page boundary with pages left fetched exactly its whole budget of pages, yet reports 0 units |
| Requests.BoundaryStopRestoresBudget | src/data_acquisition.py:419-430 | after a harvest that fetched pages but reports 0 units, the driver goes on to the next entry with the units spent unchanged, although the whole remaining budget was used |
| Requests.SessionOverspends | src/data_acquisition.py:291-293 | two unstarted videos and a budget of one unit: the session fetches two pages, writes exactly the top-level record of each video's comment, and leaves both entries unfinished at their next cursor |
| Requests.ResumeRepeatsReplies | src/data_acquisition.py:269-276 | one thread with three reply pages: a harvest with 4 units writes reply r2; with 2 units it stops after r1 with its page's cursor, the resumed harvest repeats it exactly, neither writes r2, and a session leaves the entry as it was |
| CommentCrawl.VisitEntry | src/data_acquisition.py:411-455 | one visit keeps the ledger length |
| CommentCrawl.VisitFacts | src/data_acquisition.py:411-455 | a visit changes at most the visited entry, keeps its id, skips a finished entry, and goes on only while budget is left |
| CommentCrawl.VisitStoresCursor | src/data_acquisition.py:419-446 | a visited unfinished entry always stores the returned cursor; exhaustion ends the session; the entry becomes done exactly when its harvest completed and the budget was not met |
| CommentCrawl.DriveKeepsLedger | src/data_acquisition.py:411-455 | a session keeps ledger length, order and ids, never touches finished entries or entries already passed, and never unmarks a video |
| CommentCrawl.MarkedDoneHasNoCursor | src/data_acquisition.py:445-446 | an entry a session marks done has no stored cursor, whatever the ledger held before |
| CommentCrawl.KeepsDoneHaveNoCursor | src/data_acquisition.py:445-446 | a session preserves "every finished entry has no stored cursor" |
| CommentCrawl.QuotaMetLeavesPending | src/data_acquisition.py:430-446 | a video completed on exactly the last units stays unfinished with no cursor |
| Acquisition.Crawler.WriteReplies | src/data_acquisition.py:282-283 | appends one reply record per embedded reply, in order |
| Acquisition.Crawler.SaveCommentReplies | src/data_acquisition.py:313-379 | returns the units spent (or exhaustion) and the replies written, and appends those records, as WalkReplies from the first page |
| Acquisition.Crawler.SaveThread | src/data_acquisition.py:259-283 | writes one thread and moves the page loop on exactly as ItemStep |
| Acquisition.Crawler.SavePage | src/data_acquisition.py:258-283 | writes a page's threads in order, stopping at the first early return, exactly as ProcessItems |
| Acquisition.Crawler.SaveThreadsPage | src/data_acquisition.py:219-311 | one round of the page loop: either the harvest's final result and all its records, or the cursor, units and counts to go on with, having spent at least one more unit and written exactly the records the rest of the walk would not |
| Acquisition.Crawler.SaveVideoComments | src/data_acquisition.py:192-311 | returns the harvest result and appends the records of WalkThreads from the given cursor with nothing spent |
| Acquisition.Crawler.VisitVideo | src/data_acquisition.py:412-446 | visits one ledger entry exactly as VisitEntry: ledger, records, units and whether the session stops |
| Acquisition.Crawler.SaveAllVideosComments | src/data_acquisition.py:394-455 | leaves the ledger and appends the records of Drive over the whole ledger with the day's budget |
| Acquisition.Crawler.AddVideo | src/data_acquisition.py:516-527 | the ledger becomes Added(ledger, stripped id) |
| Acquisition.Crawler.Register | src/data_acquisition.py:517-527 | the ledger becomes Added(ledger, id): unchanged when an entry has the id, else one fresh entry appended |
| Acquisition.Crawler.GetVideosProgress | src/data_acquisition.py:489-497 | the done / half-way / undone counts of the ledger, summing to its length |
| Playlists.CollectComplete | src/data_acquisition.py:150-175 | a listing whose pages end properly is complete and holds every item of every page, in order |
| Playlists.CompleteEnds | src/data_acquisition.py:150-175 | a complete listing ends properly at some page, so completeness holds exactly then |
| Playlists.LedgerUndone | src/data_acquisition.py:162-165 | a freshly built ledger reports every video as undone |
| Playlists.SavePlaylistVideos | src/data_acquisition.py:138-183 | the file is left alone when it exists and may not be overwritten, or when the listing fails; otherwise it becomes the fresh ledger of every listed video |
| Playlists.AppendRecord | src/data_acquisition.py:70-72 | writing one more playlist adds a separator only when one was already written, then the record |
| Playlists.BodyLayout | src/data_acquisition.py:61-74 | the array body alternates records and separators: record t at position 2t, a separator between each two |
| Playlists.WriteEntries | src/data_acquisition.py:61-74 | writing a page's playlists extends the array body by their records |
| Playlists.SaveChannelPlaylists | src/data_acquisition.py:30-84 | the file is left alone when it exists and may not be overwritten; otherwise it holds the array of every listed playlist, closed exactly when the listing completed |

## Left out

- The API client (`build`, `request.execute`, HTTP transport) is a parameter: the service answer maps and the positional page lists.
- An HTTP error is reduced to its outcome: a quota error, or any other failure.
- File I/O is reduced to its effect on the model's state:
  - the NDJSON file is an append-only sequence of records;
  - the ledger file is a sequence of entries;
  - the JSON text formatting and the per-video re-saves of the ledger are not modelled.
- `json.load` failures are not modelled. The parse errors (`KeyError`, `IndexError`, `TypeError`) assume well-formed answers. `IOError`/`OSError` while writing is not modelled.
- `get_channel_uploads_playlist` is not modelled: it is a single remote lookup.
- Not modelled at all: `time.sleep`, `time.time`, logging, `tqdm`, `log_every_count` and the session counters that only feed logging.
- The `NameError` possible in the driver's `finally` block is not modelled.
- `paths.py`, `config.py`, `src/utils.py`, `src/preprocessing.py`, `src/sentiment_analysis.py`, `src/sentiment_analysis_benchmark.py` and `src/lang_detect.py` are not part of this model.
- `random.Random` is not modelled: the sampler's draw is the parameter `choice`.
- The playlist listings answer request k with `pages[k]` and ignore cursor values. A listing that never ends is cut off where the page list ends.
- A harvest split into two calls does not, in general, visit every page one call with the summed budget visits. The model proves the counterexample `ResumeRepeatsReplies` instead of that property.
- Fenwick.FenwickTree.Update: requires `i >= 0`. For a negative index the source loop never ends, because `0 & -0` is 0, or it writes through Python's negative list indices.
- Fenwick.FenwickTree.Query: requires `i < n`. The source raises `IndexError` there.
- Fenwick.FenwickTree.FindPrefixIndex: requires non-negative entries. The sampler keeps that as an invariant.
- EmojiSampler.Sampler.constructor: requires distinct keys and non-negative frequencies. Dictionary keys are distinct. The source does not guard against negative frequencies.
- EmojiSampler.Sampler.Sample: requires `1 <= choice <= total` when a draw is left. That is the range of `randint(1, total)`.
