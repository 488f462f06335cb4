/**
 * Reference semantics of the comment crawl in src/data_acquisition.py:
 * what save_comment_replies, save_video_comments and
 * save_all_videos_comments return and which records they write, as
 * recursive functions over the service's answers.  The methods of
 * module Crawler are proved equal to these.
 */
module CommentCrawl {
  import opened Options
  import opened Remote
  import opened Checkpoint

  /** Threads declaring more replies than this have them fetched page by page. */
  const InlineReplyLimit := 5

  /** The units one day allows: the debugging cap or the real budget. */
  function DailyQuota(debugging: bool): (q: nat)
    ensures q <= 9900
  {
    if debugging then 10 else 9900
  }

  function Max(a: int, b: int): int { if a < b then b else a }

  // ---------------------------------------------------------------- replies

  /** What a reply walk returns (units, replies seen) and the records it writes. */
  datatype ReplyWalk = ReplyWalk(used: Usage, count: nat, written: seq<Record>)

  /**
   * The reply loop for one top-level comment, resumed at cursor `token` with
   * `used` units spent out of `quota` and `count` replies written so far.
   */
  function WalkReplies(svc: Service, parentId: string, token: Option<Token>, used: nat, quota: int, count: nat): ReplyWalk
    decreases quota - used
  {
    if used >= quota then ReplyWalk(Used(used), count, [])
    else match ReplyPage(svc, parentId, token)
      case QuotaExceeded => ReplyWalk(Exhausted, count, [])
      case Failed => ReplyWalk(Used(used), count, [])
      case Got(p) =>
        if Falsy(p.nextPageToken) then ReplyWalk(Used(used + 1), count + |p.items|, Replies(p.items))
        else
          var rest := WalkReplies(svc, parentId, p.nextPageToken, used + 1, quota, count + |p.items|);
          rest.(written := Replies(p.items) + rest.written)
  }

  /** save_comment_replies as called: from the first page, nothing spent. */
  function RepliesOf(svc: Service, parentId: string, quota: int): ReplyWalk
  {
    WalkReplies(svc, parentId, None, 0, quota, 0)
  }

  /**
   * A reply walk never spends past its budget, reports exactly the replies it
   * wrote and writes nothing but replies.
   */
  lemma {:induction false} ReplyWalkBounds(svc: Service, parentId: string, token: Option<Token>, used: nat, quota: int, count: nat)
    ensures var w := WalkReplies(svc, parentId, token, used, quota, count);
      && (w.used.Used? ==> used <= w.used.n <= Max(quota, used))
      && w.count == count + |w.written|
      && (forall t :: 0 <= t < |w.written| ==> w.written[t].Reply?)
      && (quota <= used ==> w == ReplyWalk(Used(used), count, []))
    decreases quota - used
  {
    if used < quota {
      match ReplyPage(svc, parentId, token)
      case QuotaExceeded =>
      case Failed =>
      case Got(p) =>
        if !Falsy(p.nextPageToken) {
          ReplyWalkBounds(svc, parentId, p.nextPageToken, used + 1, quota, count + |p.items|);
        }
    }
  }

  // ---------------------------------------------------------------- threads

  /** What save_video_comments returns. */
  datatype Harvest = Harvest(used: Usage, nextPageToken: Option<Token>, comments: nat, replies: nat, done: bool)

  /** The state of the item loop: still going, or returned early with a result. */
  datatype PageState = Going(used: nat, comments: nat, replies: nat) | Stopped(result: Harvest)

  /**
   * One thread of a fetched page, at cursor `token` (the page's own cursor,
   * which an early return hands back so the page is fetched again).
   */
  function ItemStep(svc: Service, videoId: string, token: Option<Token>, quota: int,
                    used: nat, comments: nat, replies: nat, item: ThreadItem): (PageState, seq<Record>)
  {
    var top := TopLevel(item.topLevelComment, item.totalReplyCount, videoId);
    if item.totalReplyCount > InlineReplyLimit then
      var w := RepliesOf(svc, item.topLevelComment.id, quota - used);
      match w.used
      case Exhausted => (Stopped(Harvest(Exhausted, token, comments + 1, replies + w.count, false)), [top] + w.written)
      case Used(k) =>
        if used + k >= quota then
          (Stopped(Harvest(Used(used + k), token, comments + 1, replies + w.count, false)), [top] + w.written)
        else (Going(used + k, comments + 1, replies + w.count), [top] + w.written)
    else if item.replies.Some? then
      (Going(used, comments + 1, replies + item.totalReplyCount), [top] + Replies(item.replies.value))
    else (Going(used, comments + 1, replies), [top])
  }

  /** The item loop over the rest of a page, stopping at the first early return. */
  function ProcessItems(svc: Service, videoId: string, token: Option<Token>, quota: int,
                        st: PageState, items: seq<ThreadItem>): (r: (PageState, seq<Record>))
    ensures st.Stopped? ==> r == (st, [])
    ensures st.Going? && r.0.Going? ==> st.used <= r.0.used
    decreases |items|
  {
    if items == [] || st.Stopped? then (st, [])
    else
      var (st1, out1) := ItemStep(svc, videoId, token, quota, st.used, st.comments, st.replies, items[0]);
      var (st2, out2) := ProcessItems(svc, videoId, token, quota, st1, items[1..]);
      (st2, out1 + out2)
  }

  /** The item loop over items[k..] takes item k, then goes on with the rest. */
  lemma ProcessItemsStep(svc: Service, videoId: string, token: Option<Token>, quota: int,
                         st: PageState, items: seq<ThreadItem>, k: nat)
    requires st.Going? && k < |items|
    ensures var step := ItemStep(svc, videoId, token, quota, st.used, st.comments, st.replies, items[k]);
      var rest := ProcessItems(svc, videoId, token, quota, step.0, items[k + 1..]);
      ProcessItems(svc, videoId, token, quota, st, items[k..]) == (rest.0, step.1 + rest.1)
  {
    assert items[k..][0] == items[k] && items[k..][1..] == items[k + 1..];
  }

  /**
   * The item loop resumed after item k: once item k has turned `st` into
   * `next` and extended the records from `before` to `after`, what the loop
   * still does from `next` ends where the loop from `st` ends and writes
   * the same records.
   */
  lemma ProcessItemsResume(svc: Service, videoId: string, token: Option<Token>, quota: int,
                           st: PageState, items: seq<ThreadItem>, k: nat,
                           before: seq<Record>, after: seq<Record>, next: PageState)
    requires st.Going? && k < |items|
    requires var step := ItemStep(svc, videoId, token, quota, st.used, st.comments, st.replies, items[k]);
      next == step.0 && after == before + step.1
    ensures var whole := ProcessItems(svc, videoId, token, quota, st, items[k..]);
      var rest := ProcessItems(svc, videoId, token, quota, next, items[k + 1..]);
      whole.0 == rest.0 && before + whole.1 == after + rest.1
  {
    ProcessItemsStep(svc, videoId, token, quota, st, items, k);
    var step := ItemStep(svc, videoId, token, quota, st.used, st.comments, st.replies, items[k]);
    var rest := ProcessItems(svc, videoId, token, quota, next, items[k + 1..]);
    assert before + (step.1 + rest.1) == after + rest.1;
  }

  /** The result once the page loop ends without an early return. */
  function Finish(used: nat, token: Option<Token>, comments: nat, replies: nat, quota: int): Harvest
  {
    if used >= quota && token.Some? then Harvest(Used(0), token, comments, replies, false)
    else Harvest(Used(used), None, comments, replies, true)
  }

  datatype ThreadWalk = ThreadWalk(result: Harvest, written: seq<Record>)

  /**
   * The page loop of save_video_comments, resumed at cursor `token` with
   * `used` units spent out of `quota`.
   */
  function WalkThreads(svc: Service, videoId: string, token: Option<Token>, used: nat, quota: int,
                       comments: nat, replies: nat): ThreadWalk
    decreases quota - used
  {
    if used >= quota then ThreadWalk(Finish(used, token, comments, replies, quota), [])
    else match ThreadPage(svc, videoId, token)
      case QuotaExceeded => ThreadWalk(Harvest(Exhausted, token, comments, replies, false), [])
      case Failed => ThreadWalk(Harvest(Used(used), token, comments, replies, false), [])
      case Got(p) =>
        var (st, out) := ProcessItems(svc, videoId, token, quota, Going(used + 1, comments, replies), p.items);
        match st
        case Stopped(h) => ThreadWalk(h, out)
        case Going(u, c, r) =>
          if Falsy(p.nextPageToken) then ThreadWalk(Finish(u, p.nextPageToken, c, r, quota), out)
          else
            var rest := WalkThreads(svc, videoId, p.nextPageToken, u, quota, c, r);
            rest.(written := out + rest.written)
  }

  /** One fetched page of the page loop: its item loop, then the end of the harvest or the next page. */
  lemma WalkThreadsPage(svc: Service, videoId: string, token: Option<Token>, used: nat, quota: int,
                        comments: nat, replies: nat, p: Page<ThreadItem>)
    requires used < quota && ThreadPage(svc, videoId, token) == Got(p)
    ensures var page := ProcessItems(svc, videoId, token, quota, Going(used + 1, comments, replies), p.items);
      var w := WalkThreads(svc, videoId, token, used, quota, comments, replies);
      && (page.0.Stopped? ==> w == ThreadWalk(page.0.result, page.1))
      && (page.0.Going? && Falsy(p.nextPageToken) ==>
            w == ThreadWalk(Finish(page.0.used, p.nextPageToken, page.0.comments, page.0.replies, quota), page.1))
      && (page.0.Going? && !Falsy(p.nextPageToken) ==>
            var rest := WalkThreads(svc, videoId, p.nextPageToken, page.0.used, quota, page.0.comments, page.0.replies);
            w == rest.(written := page.1 + rest.written))
  {
  }

  /** save_video_comments as called by the driver: nothing spent, no counts yet. */
  function HarvestVideo(svc: Service, videoId: string, token: Option<Token>, quota: int): ThreadWalk
  {
    WalkThreads(svc, videoId, token, 0, quota, 0, 0)
  }

  /** The number of top-level records among `rs`. */
  function CountTop(rs: seq<Record>): nat
  {
    if rs == [] then 0 else CountTop(rs[..|rs| - 1]) + (if rs[|rs| - 1].TopLevel? then 1 else 0)
  }

  lemma {:induction false} CountTopAppend(a: seq<Record>, b: seq<Record>)
    ensures CountTop(a + b) == CountTop(a) + CountTop(b)
    decreases |b|
  {
    if b == [] {
      assert a + b == a;
    } else {
      assert (a + b)[..|a + b| - 1] == a + b[..|b| - 1];
      CountTopAppend(a, b[..|b| - 1]);
    }
  }

  lemma {:induction false} CountTopReplies(rs: seq<Record>)
    requires forall t :: 0 <= t < |rs| ==> rs[t].Reply?
    ensures CountTop(rs) == 0
  {
    if rs != [] {
      CountTopReplies(rs[..|rs| - 1]);
    }
  }

  /** What a result promises about its usage, cursor and completion flag. */
  predicate WellFormed(h: Harvest, quota: int)
  {
    && (h.used.Used? ==> h.used.n <= Max(quota, 0))
    && (h.done ==> h.nextPageToken.None? && h.used.Used?)
  }

  /**
   * One thread either keeps the loop going within the budget or returns early
   * with the page's own cursor and without completing the video; the count of
   * top-level comments grows by the one record the thread writes.
   */
  lemma ItemStepFacts(svc: Service, videoId: string, token: Option<Token>, quota: int,
                      used: nat, comments: nat, replies: nat, item: ThreadItem)
    requires used <= quota
    ensures var (st, out) := ItemStep(svc, videoId, token, quota, used, comments, replies, item);
      && CountTop(out) == 1
      && (st.Going? ==> used <= st.used <= quota && st.comments == comments + 1)
      && (st.Stopped? ==> st.result.nextPageToken == token && !st.result.done
                          && WellFormed(st.result, quota) && st.result.comments == comments + 1)
  {
    var top := TopLevel(item.topLevelComment, item.totalReplyCount, videoId);
    if item.totalReplyCount > InlineReplyLimit {
      var w := RepliesOf(svc, item.topLevelComment.id, quota - used);
      ReplyWalkBounds(svc, item.topLevelComment.id, None, 0, quota - used, 0);
      CountTopReplies(w.written);
      CountTopAppend([top], w.written);
    } else if item.replies.Some? {
      CountTopReplies(Replies(item.replies.value));
      CountTopAppend([top], Replies(item.replies.value));
    }
  }

  /** The item loop keeps those facts over a whole page. */
  lemma {:induction false} ProcessItemsFacts(svc: Service, videoId: string, token: Option<Token>, quota: int,
                                             st: PageState, items: seq<ThreadItem>)
    requires st.Going? && st.used <= quota
    ensures var (fin, out) := ProcessItems(svc, videoId, token, quota, st, items);
      && (fin.Going? ==> st.used <= fin.used <= quota && fin.comments == st.comments + CountTop(out))
      && (fin.Stopped? ==> fin.result.nextPageToken == token && !fin.result.done
                           && WellFormed(fin.result, quota) && fin.result.comments == st.comments + CountTop(out))
    decreases |items|
  {
    if items != [] {
      var (st1, out1) := ItemStep(svc, videoId, token, quota, st.used, st.comments, st.replies, items[0]);
      ItemStepFacts(svc, videoId, token, quota, st.used, st.comments, st.replies, items[0]);
      var (st2, out2) := ProcessItems(svc, videoId, token, quota, st1, items[1..]);
      CountTopAppend(out1, out2);
      if st1.Going? {
        ProcessItemsFacts(svc, videoId, token, quota, st1, items[1..]);
      }
    }
  }

  /**
   * Every result of the page loop is well formed: the units reported never
   * exceed the budget, a completed video has no cursor and a real count, an
   * exhausted quota never completes a video, and the number of comments
   * reported is the number of top-level records written.
   */
  lemma {:induction false} WalkThreadsFacts(svc: Service, videoId: string, token: Option<Token>, used: nat, quota: int,
                                            comments: nat, replies: nat)
    requires used <= Max(quota, 0)
    ensures var w := WalkThreads(svc, videoId, token, used, quota, comments, replies);
      && WellFormed(w.result, quota)
      && (w.result.used.Exhausted? ==> !w.result.done)
      && w.result.comments == comments + CountTop(w.written)
    decreases quota - used
  {
    if used < quota {
      match ThreadPage(svc, videoId, token)
      case QuotaExceeded =>
      case Failed =>
      case Got(p) =>
        var (st, out) := ProcessItems(svc, videoId, token, quota, Going(used + 1, comments, replies), p.items);
        ProcessItemsFacts(svc, videoId, token, quota, Going(used + 1, comments, replies), p.items);
        if st.Going? && !Falsy(p.nextPageToken) {
          var rest := WalkThreads(svc, videoId, p.nextPageToken, st.used, quota, st.comments, st.replies);
          WalkThreadsFacts(svc, videoId, p.nextPageToken, st.used, quota, st.comments, st.replies);
          CountTopAppend(out, rest.written);
        }
    }
  }

  /**
   * Threads declaring at most five replies cost nothing: their embedded
   * replies are written and the declared count, not the number written, is
   * added.  Larger threads get a reply walk over what is left of the budget;
   * the harvest stops exactly when that walk hits a quota error (reporting
   * exhaustion) or meets the budget (reporting the units spent), and hands
   * back the cursor of the page being processed; otherwise the walk's units
   * and replies are added and the page goes on.
   */
  lemma ReplyThreshold(svc: Service, videoId: string, token: Option<Token>, quota: int,
                       used: nat, comments: nat, replies: nat, item: ThreadItem)
    ensures var (st, out) := ItemStep(svc, videoId, token, quota, used, comments, replies, item);
      var top := TopLevel(item.topLevelComment, item.totalReplyCount, videoId);
      && (item.totalReplyCount <= InlineReplyLimit ==>
            && st == Going(used, comments + 1, replies + (if item.replies.Some? then item.totalReplyCount else 0))
            && out == [top] + (if item.replies.Some? then Replies(item.replies.value) else []))
      && (item.totalReplyCount > InlineReplyLimit ==>
            var w := RepliesOf(svc, item.topLevelComment.id, quota - used);
            && out == [top] + w.written
            && (st.Stopped? <==> w.used.Exhausted? || used + w.used.n >= quota)
            && (w.used.Exhausted? ==> st == Stopped(Harvest(Exhausted, token, comments + 1, replies + w.count, false)))
            && (w.used.Used? && used + w.used.n >= quota ==>
                  st == Stopped(Harvest(Used(used + w.used.n), token, comments + 1, replies + w.count, false)))
            && (st.Going? ==> st == Going(used + w.used.n, comments + 1, replies + w.count)))
  {
  }

  /** The item loop over a + b is the loop over a, then the loop over b from where it left off. */
  predicate AppendSplits(svc: Service, videoId: string, token: Option<Token>, quota: int,
                         st: PageState, a: seq<ThreadItem>, b: seq<ThreadItem>)
  {
    var first := ProcessItems(svc, videoId, token, quota, st, a);
    var second := ProcessItems(svc, videoId, token, quota, first.0, b);
    ProcessItems(svc, videoId, token, quota, st, a + b) == (second.0, first.1 + second.1)
  }

  lemma {:induction false} ProcessItemsAppend(svc: Service, videoId: string, token: Option<Token>, quota: int,
                                              st: PageState, a: seq<ThreadItem>, b: seq<ThreadItem>)
    ensures AppendSplits(svc, videoId, token, quota, st, a, b)
    decreases |a|
  {
    if a == [] {
      assert a + b == b;
      var first := ProcessItems(svc, videoId, token, quota, st, a);
      var second := ProcessItems(svc, videoId, token, quota, st, b);
      assert first == (st, []);
      assert first.1 + second.1 == second.1;
    } else if st.Going? {
      var step := ItemStep(svc, videoId, token, quota, st.used, st.comments, st.replies, a[0]);
      ProcessItemsAppend(svc, videoId, token, quota, step.0, a[1..], b);
      AppendStep(svc, videoId, token, quota, st, a, b);
    } else {
      assert ProcessItems(svc, videoId, token, quota, st, a) == (st, []);
      assert ProcessItems(svc, videoId, token, quota, st, b) == (st, []);
      var none: seq<Record> := [];
      assert none + none == none;
    }
  }

  /** The inductive step of ProcessItemsAppend: the first item of a is the first item of a + b. */
  lemma AppendStep(svc: Service, videoId: string, token: Option<Token>, quota: int,
                   st: PageState, a: seq<ThreadItem>, b: seq<ThreadItem>)
    requires st.Going? && a != []
    requires AppendSplits(svc, videoId, token, quota,
      ItemStep(svc, videoId, token, quota, st.used, st.comments, st.replies, a[0]).0, a[1..], b)
    ensures AppendSplits(svc, videoId, token, quota, st, a, b)
  {
    ConsAppend(a, b);
    var step := ItemStep(svc, videoId, token, quota, st.used, st.comments, st.replies, a[0]);
    var first := ProcessItems(svc, videoId, token, quota, step.0, a[1..]);
    var second := ProcessItems(svc, videoId, token, quota, first.0, b);
    AppendAssoc(step.1, first.1, second.1);
  }

  /** The head and tail of a + b, for a non-empty a. */
  lemma ConsAppend(a: seq<ThreadItem>, b: seq<ThreadItem>)
    requires a != []
    ensures (a + b)[0] == a[0] && (a + b)[1..] == a[1..] + b
  {
  }

  lemma AppendAssoc(x: seq<Record>, y: seq<Record>, z: seq<Record>)
    ensures x + (y + z) == (x + y) + z
  {
  }

  /** With no budget at all a harvest fetches nothing, yet reports a video without a cursor as complete. */
  lemma NoBudget(svc: Service, videoId: string, token: Option<Token>, quota: int)
    requires quota <= 0
    ensures var w := HarvestVideo(svc, videoId, token, quota);
      && w.written == []
      && w.result == (if token.Some? then Harvest(Used(0), token, 0, 0, false) else Harvest(Used(0), None, 0, 0, true))
  {
  }

  /**
   * When a page's own fetch spends the last unit and more pages follow, the
   * harvest hands back the next cursor but reports zero units spent.
   */
  lemma BoundaryStopReportsZero(svc: Service, videoId: string, token: Option<Token>, used: nat, quota: int,
                                comments: nat, replies: nat, p: Page<ThreadItem>, u: nat, c: nat, r: nat)
    requires used < quota && ThreadPage(svc, videoId, token) == Got(p)
    requires ProcessItems(svc, videoId, token, quota, Going(used + 1, comments, replies), p.items).0 == Going(u, c, r)
    requires u >= quota && !Falsy(p.nextPageToken)
    ensures WalkThreads(svc, videoId, token, used, quota, comments, replies).result
         == Harvest(Used(0), p.nextPageToken, c, r, false)
  {
  }

  /** A page without a cursor ends the harvest as complete, reporting the units spent. */
  lemma LastPageCompletes(svc: Service, videoId: string, token: Option<Token>, used: nat, quota: int,
                          comments: nat, replies: nat, p: Page<ThreadItem>, u: nat, c: nat, r: nat)
    requires used < quota && ThreadPage(svc, videoId, token) == Got(p)
    requires ProcessItems(svc, videoId, token, quota, Going(used + 1, comments, replies), p.items).0 == Going(u, c, r)
    requires p.nextPageToken.None?
    ensures WalkThreads(svc, videoId, token, used, quota, comments, replies).result
         == Harvest(Used(u), None, c, r, true)
  {
  }

  /**
   * When the reply walk of thread k of a page meets or exhausts the budget,
   * the harvest ends there: unfinished, with the cursor of the page being
   * processed (so that whole page is fetched and written again on resume),
   * reporting exhaustion or the units spent, and counting the thread and its
   * replies.
   */
  lemma ReplyStopRefetchesPage(svc: Service, videoId: string, token: Option<Token>, used: nat, quota: int,
                               comments: nat, replies: nat, p: Page<ThreadItem>, k: nat, u: nat, c: nat, r: nat)
    requires used < quota && ThreadPage(svc, videoId, token) == Got(p) && k < |p.items|
    requires ProcessItems(svc, videoId, token, quota, Going(used + 1, comments, replies), p.items[..k]).0 == Going(u, c, r)
    requires p.items[k].totalReplyCount > InlineReplyLimit
    requires var w := RepliesOf(svc, p.items[k].topLevelComment.id, quota - u);
      w.used.Exhausted? || u + w.used.n >= quota
    ensures var w := RepliesOf(svc, p.items[k].topLevelComment.id, quota - u);
      WalkThreads(svc, videoId, token, used, quota, comments, replies).result
        == Harvest(if w.used.Exhausted? then Exhausted else Used(u + w.used.n), token, c + 1, r + w.count, false)
  {
    var start := Going(used + 1, comments, replies);
    assert p.items == p.items[..k] + p.items[k..];
    ProcessItemsAppend(svc, videoId, token, quota, start, p.items[..k], p.items[k..]);
    ProcessItemsStep(svc, videoId, token, quota, Going(u, c, r), p.items, k);
    ReplyThreshold(svc, videoId, token, quota, u, c, r, p.items[k]);
  }

  /**
   * A failing thread fetch ends the harvest with the cursor it was asked for
   * and the units spent so far; a quota error with the same cursor and
   * exhaustion.
   */
  lemma FetchErrorsKeepCursor(svc: Service, videoId: string, token: Option<Token>, used: nat, quota: int,
                              comments: nat, replies: nat)
    requires used < quota
    ensures var w := WalkThreads(svc, videoId, token, used, quota, comments, replies);
      && (ThreadPage(svc, videoId, token).Failed? ==> w == ThreadWalk(Harvest(Used(used), token, comments, replies, false), []))
      && (ThreadPage(svc, videoId, token).QuotaExceeded? ==> w == ThreadWalk(Harvest(Exhausted, token, comments, replies, false), []))
  {
  }

  // ---------------------------------------------------------------- driver

  /** The ledger and the records a crawl session leaves behind. */
  datatype Session = Session(videos: seq<Video>, written: seq<Record>)

  /** One entry's visit: the ledger after it, the records written, the units spent so far, and whether the loop stops. */
  datatype Visit = Visit(videos: seq<Video>, written: seq<Record>, used: nat, stop: bool)

  /**
   * The body of the video loop of save_all_videos_comments for entry i, with
   * `used` units of `quota` spent: a finished entry is skipped; any other is
   * harvested with what is left of the budget and its cursor stored; the loop
   * stops when the budget is then met or exhausted, and only otherwise is a
   * completed video marked done.
   */
  function VisitEntry(svc: Service, vs: seq<Video>, i: nat, used: nat, quota: int): (v: Visit)
    requires i < |vs|
    ensures |v.videos| == |vs|
  {
    if vs[i].done then Visit(vs, [], used, false)
    else
      var w := HarvestVideo(svc, vs[i].videoId, vs[i].nextPageToken, quota - used);
      var stored := vs[i].(nextPageToken := w.result.nextPageToken);
      match w.result.used
      case Exhausted => Visit(vs[i := stored], w.written, used, true)
      case Used(k) =>
        if used + k >= quota then Visit(vs[i := stored], w.written, used + k, true)
        else Visit(vs[i := if w.result.done then stored.(done := true) else stored], w.written, used + k, false)
  }

  /** The video loop from entry i on. */
  function Drive(svc: Service, vs: seq<Video>, i: nat, used: nat, quota: int): Session
    requires i <= |vs|
    decreases |vs| - i
  {
    if i == |vs| then Session(vs, [])
    else
      var v := VisitEntry(svc, vs, i, used, quota);
      if v.stop then Session(v.videos, v.written)
      else
        var rest := Drive(svc, v.videos, i + 1, v.used, quota);
        rest.(written := v.written + rest.written)
  }

  /** A whole session: every entry from the first, nothing spent yet. */
  function Crawl(svc: Service, vs: seq<Video>, debugging: bool): Session
  {
    Drive(svc, vs, 0, 0, DailyQuota(debugging))
  }

  /**
   * A visit changes at most entry i, keeping its id, leaving a finished entry
   * alone and never unmarking it; it only goes on while budget is left.
   */
  lemma VisitFacts(svc: Service, vs: seq<Video>, i: nat, used: nat, quota: int)
    requires i < |vs|
    ensures var v := VisitEntry(svc, vs, i, used, quota);
      && (forall j :: 0 <= j < |vs| && j != i ==> v.videos[j] == vs[j])
      && v.videos[i].videoId == vs[i].videoId
      && (vs[i].done ==> v.videos[i] == vs[i] && !v.stop)
      && (!v.stop ==> used <= v.used && v.used < Max(quota, used + 1))
  {
  }

  /**
   * Visiting an unfinished entry always stores the cursor its harvest hands
   * back, and an exhausted quota ends the session.
   */
  lemma VisitStoresCursor(svc: Service, vs: seq<Video>, i: nat, used: nat, quota: int)
    requires i < |vs| && !vs[i].done
    ensures var v := VisitEntry(svc, vs, i, used, quota);
      var h := HarvestVideo(svc, vs[i].videoId, vs[i].nextPageToken, quota - used).result;
      && v.videos[i].nextPageToken == h.nextPageToken
      && (h.used.Exhausted? ==> v.stop)
      && (v.videos[i].done <==> h.done && h.used.Used? && used + h.used.n < quota)
  {
  }

  /**
   * A session keeps the ledger's length, order and ids, never touches
   * finished entries or entries it has passed, and never unmarks a video.
   */
  lemma {:induction false} DriveKeepsLedger(svc: Service, vs: seq<Video>, i: nat, used: nat, quota: int)
    requires i <= |vs|
    ensures var s := Drive(svc, vs, i, used, quota);
      && |s.videos| == |vs|
      && (forall j :: 0 <= j < |vs| ==> s.videos[j].videoId == vs[j].videoId)
      && (forall j :: 0 <= j < |vs| && vs[j].done ==> s.videos[j] == vs[j])
      && (forall j :: 0 <= j < i ==> s.videos[j] == vs[j])
    decreases |vs| - i
  {
    if i < |vs| {
      var v := VisitEntry(svc, vs, i, used, quota);
      VisitFacts(svc, vs, i, used, quota);
      if !v.stop {
        DriveKeepsLedger(svc, v.videos, i + 1, v.used, quota);
      }
    }
  }

  /** Every finished entry of the ledger has no stored cursor. */
  predicate DoneHaveNoCursor(vs: seq<Video>)
  {
    forall j :: 0 <= j < |vs| && vs[j].done ==> vs[j].nextPageToken.None?
  }

  /**
   * An entry the session marks done was completed by its harvest: its stored
   * cursor is gone, whatever the ledger held before.
   */
  lemma {:induction false} MarkedDoneHasNoCursor(svc: Service, vs: seq<Video>, i: nat, used: nat, quota: int)
    requires i <= |vs|
    ensures var s := Drive(svc, vs, i, used, quota);
      && |s.videos| == |vs|
      && forall j :: 0 <= j < |vs| && !vs[j].done && s.videos[j].done ==> s.videos[j].nextPageToken.None?
    decreases |vs| - i
  {
    if i < |vs| {
      var v := VisitEntry(svc, vs, i, used, quota);
      VisitFacts(svc, vs, i, used, quota);
      if !vs[i].done {
        WalkThreadsFacts(svc, vs[i].videoId, vs[i].nextPageToken, 0, quota - used, 0, 0);
      }
      assert !vs[i].done && v.videos[i].done ==> v.videos[i].nextPageToken.None?;
      if !v.stop {
        MarkedDoneHasNoCursor(svc, v.videos, i + 1, v.used, quota);
        DriveKeepsLedger(svc, v.videos, i + 1, v.used, quota);
      }
    }
  }

  /**
   * A session keeps "every finished entry has no stored cursor": entries
   * already finished are left alone, and newly finished ones lost their
   * cursor.
   */
  lemma KeepsDoneHaveNoCursor(svc: Service, vs: seq<Video>, i: nat, used: nat, quota: int)
    requires i <= |vs|
    requires DoneHaveNoCursor(vs)
    ensures DoneHaveNoCursor(Drive(svc, vs, i, used, quota).videos)
  {
    MarkedDoneHasNoCursor(svc, vs, i, used, quota);
    DriveKeepsLedger(svc, vs, i, used, quota);
  }

  /**
   * The quota check comes before the done flag: a video whose harvest
   * completes on exactly the last units stays unfinished, and since a
   * completed harvest hands back no cursor its entry reads as never started.
   */
  lemma QuotaMetLeavesPending(svc: Service, vs: seq<Video>, i: nat, used: nat, quota: int)
    requires i < |vs| && !vs[i].done && used <= quota
    requires var h := HarvestVideo(svc, vs[i].videoId, vs[i].nextPageToken, quota - used).result;
      h.done && h.used.Used? && used + h.used.n >= quota
    ensures Drive(svc, vs, i, used, quota).videos == vs[i := Video(vs[i].videoId, false, None)]
  {
    WalkThreadsFacts(svc, vs[i].videoId, vs[i].nextPageToken, 0, quota - used, 0, 0);
  }
}
