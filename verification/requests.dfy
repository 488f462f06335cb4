/**
 * The page requests the comment crawl of src/data_acquisition.py actually
 * answers, counted independently of the units its functions report.  Every
 * answered request is charged one unit (`current_quota_usage += 1` after
 * each `execute()`), so the reported units equal the pages fetched — except
 * where the code reports something else: a quota error reports exhaustion,
 * and a harvest that stops at a page boundary with pages left reports 0.
 * Because the driver then gives the next video the same budget again, a
 * session can fetch more pages than its daily quota.  The last section shows
 * that a harvest resumed after a reply-driven stop pays for the same reply
 * pages again.
 */
module Requests {
  import opened Options
  import opened Remote
  import opened Checkpoint
  import opened CommentCrawl

  // ---------------------------------------------------------------- replies

  /** The reply pages a reply walk fetches. */
  function ReplyPages(svc: Service, parentId: string, token: Option<Token>, used: nat, quota: int): nat
    decreases quota - used
  {
    if used >= quota then 0
    else match ReplyPage(svc, parentId, token)
      case Got(p) =>
        if Falsy(p.nextPageToken) then 1
        else 1 + ReplyPages(svc, parentId, p.nextPageToken, used + 1, quota)
      case _ => 0
  }

  /**
   * A reply walk fetches no more pages than its budget allows, and the units
   * it reports are exactly one per page fetched, unless it ends on a quota
   * error.
   */
  lemma {:induction false} ReplyPagesUnits(svc: Service, parentId: string, token: Option<Token>, used: nat, quota: int, count: nat)
    ensures var n := ReplyPages(svc, parentId, token, used, quota);
      var w := WalkReplies(svc, parentId, token, used, quota, count);
      && used + n <= Max(quota, used)
      && (w.used.Used? ==> w.used.n == used + n)
    decreases quota - used
  {
    if used < quota {
      match ReplyPage(svc, parentId, token)
      case QuotaExceeded =>
      case Failed =>
      case Got(p) =>
        if !Falsy(p.nextPageToken) {
          ReplyPagesUnits(svc, parentId, p.nextPageToken, used + 1, quota, count + |p.items|);
        }
    }
  }

  // ---------------------------------------------------------------- threads

  /** The reply pages one thread of a page costs, with `used` units spent. */
  function ItemPages(svc: Service, quota: int, used: nat, item: ThreadItem): nat
  {
    if item.totalReplyCount > InlineReplyLimit then ReplyPages(svc, item.topLevelComment.id, None, 0, quota - used)
    else 0
  }

  /** The reply pages the item loop fetches over the rest of a page. */
  function PagesOfItems(svc: Service, videoId: string, token: Option<Token>, quota: int,
                        st: PageState, items: seq<ThreadItem>): nat
    decreases |items|
  {
    if items == [] || st.Stopped? then 0
    else
      var step := ItemStep(svc, videoId, token, quota, st.used, st.comments, st.replies, items[0]);
      ItemPages(svc, quota, st.used, items[0]) + PagesOfItems(svc, videoId, token, quota, step.0, items[1..])
  }

  /** One thread's units are exactly its reply pages, unless its walk ends on a quota error. */
  lemma ItemPagesUnits(svc: Service, videoId: string, token: Option<Token>, quota: int,
                       used: nat, comments: nat, replies: nat, item: ThreadItem)
    requires used <= quota
    ensures var st := ItemStep(svc, videoId, token, quota, used, comments, replies, item).0;
      var n := ItemPages(svc, quota, used, item);
      && used + n <= quota
      && (st.Going? ==> st.used == used + n)
      && (st.Stopped? && st.result.used.Used? ==> st.result.used.n == used + n)
  {
    ReplyPagesUnits(svc, item.topLevelComment.id, None, 0, quota - used, 0);
  }

  /** Over a page, the units the item loop adds are exactly the reply pages it fetches. */
  lemma {:induction false} PagesOfItemsUnits(svc: Service, videoId: string, token: Option<Token>, quota: int,
                                             st: PageState, items: seq<ThreadItem>)
    requires st.Going? && st.used <= quota
    ensures var fin := ProcessItems(svc, videoId, token, quota, st, items).0;
      var n := PagesOfItems(svc, videoId, token, quota, st, items);
      && st.used + n <= quota
      && (fin.Going? ==> fin.used == st.used + n)
      && (fin.Stopped? && fin.result.used.Used? ==> fin.result.used.n == st.used + n)
    decreases |items|
  {
    if items != [] {
      var step := ItemStep(svc, videoId, token, quota, st.used, st.comments, st.replies, items[0]);
      ItemPagesUnits(svc, videoId, token, quota, st.used, st.comments, st.replies, items[0]);
      ProcessItemsStep(svc, videoId, token, quota, st, items, 0);
      assert items[0..] == items;
      if step.0.Going? {
        PagesOfItemsUnits(svc, videoId, token, quota, step.0, items[1..]);
      }
    }
  }

  /** The pages, thread pages and reply pages, the page loop fetches. */
  function ThreadPages(svc: Service, videoId: string, token: Option<Token>, used: nat, quota: int,
                       comments: nat, replies: nat): nat
    decreases quota - used
  {
    if used >= quota then 0
    else match ThreadPage(svc, videoId, token)
      case Got(p) =>
        var start := Going(used + 1, comments, replies);
        var st := ProcessItems(svc, videoId, token, quota, start, p.items).0;
        1 + PagesOfItems(svc, videoId, token, quota, start, p.items)
          + (if st.Going? && !Falsy(p.nextPageToken)
             then ThreadPages(svc, videoId, p.nextPageToken, st.used, quota, st.comments, st.replies)
             else 0)
      case _ => 0
  }

  /**
   * A harvest fetches no more pages than its budget allows.  The units it
   * reports are exactly the pages it fetched, with two exceptions: a quota
   * error reports exhaustion, and a harvest that has used up the whole
   * budget with a cursor left reports 0 units, unfinished.
   */
  lemma {:induction false} ThreadPagesUnits(svc: Service, videoId: string, token: Option<Token>, used: nat, quota: int,
                                            comments: nat, replies: nat)
    requires used <= Max(quota, 0)
    ensures var n := ThreadPages(svc, videoId, token, used, quota, comments, replies);
      var h := WalkThreads(svc, videoId, token, used, quota, comments, replies).result;
      && used + n <= Max(quota, used)
      && (h.used.Used? ==>
            || h.used.n == used + n
            || (h.used.n == 0 && used + n >= quota && h.nextPageToken.Some? && !h.done))
    decreases quota - used
  {
    if used < quota {
      match ThreadPage(svc, videoId, token)
      case QuotaExceeded =>
      case Failed =>
      case Got(p) =>
        var start := Going(used + 1, comments, replies);
        var st := ProcessItems(svc, videoId, token, quota, start, p.items).0;
        PagesOfItemsUnits(svc, videoId, token, quota, start, p.items);
        WalkThreadsPage(svc, videoId, token, used, quota, comments, replies, p);
        if st.Going? && !Falsy(p.nextPageToken) {
          ThreadPagesUnits(svc, videoId, p.nextPageToken, st.used, quota, st.comments, st.replies);
        }
    }
  }

  /**
   * The boundary stop: when a page's fetch and its reply walks use up the
   * last unit and more pages follow, the harvest has fetched exactly its
   * whole budget of pages, yet reports 0 units.
   */
  lemma BoundaryStopUsesBudget(svc: Service, videoId: string, token: Option<Token>, used: nat, quota: int,
                               comments: nat, replies: nat, p: Page<ThreadItem>, u: nat, c: nat, r: nat)
    requires used < quota && ThreadPage(svc, videoId, token) == Got(p)
    requires ProcessItems(svc, videoId, token, quota, Going(used + 1, comments, replies), p.items).0 == Going(u, c, r)
    requires u >= quota && !Falsy(p.nextPageToken)
    ensures ThreadPages(svc, videoId, token, used, quota, comments, replies) == quota - used
    ensures WalkThreads(svc, videoId, token, used, quota, comments, replies).result
         == Harvest(Used(0), p.nextPageToken, c, r, false)
  {
    PagesOfItemsUnits(svc, videoId, token, quota, Going(used + 1, comments, replies), p.items);
    BoundaryStopReportsZero(svc, videoId, token, used, quota, comments, replies, p, u, c, r);
  }

  // ---------------------------------------------------------------- driver

  /** The pages a session fetches from entry i on. */
  function DrivePages(svc: Service, vs: seq<Video>, i: nat, used: nat, quota: int): nat
    requires i <= |vs|
    decreases |vs| - i
  {
    if i == |vs| then 0
    else
      var v := VisitEntry(svc, vs, i, used, quota);
      var n := if vs[i].done then 0 else ThreadPages(svc, vs[i].videoId, vs[i].nextPageToken, 0, quota - used, 0, 0);
      n + (if v.stop then 0 else DrivePages(svc, v.videos, i + 1, v.used, quota))
  }

  /**
   * A harvest that fetched pages yet reports 0 units has used up everything
   * left of the budget; the driver nevertheless goes on to the next entry
   * with the units spent unchanged, so that entry is offered the same budget
   * again.
   */
  lemma BoundaryStopRestoresBudget(svc: Service, vs: seq<Video>, i: nat, used: nat, quota: int)
    requires i < |vs| && !vs[i].done && used < quota
    requires HarvestVideo(svc, vs[i].videoId, vs[i].nextPageToken, quota - used).result.used == Used(0)
    requires ThreadPages(svc, vs[i].videoId, vs[i].nextPageToken, 0, quota - used, 0, 0) > 0
    ensures ThreadPages(svc, vs[i].videoId, vs[i].nextPageToken, 0, quota - used, 0, 0) == quota - used
    ensures var v := VisitEntry(svc, vs, i, used, quota); !v.stop && v.used == used
  {
    ThreadPagesUnits(svc, vs[i].videoId, vs[i].nextPageToken, 0, quota - used, 0, 0);
  }

  /** A comment with the given id and every other field empty. */
  function Blank(id: string): Comment
  {
    Comment(id, "", "", "", "", 0, "", None)
  }

  /** A one-thread page of video id, its comment named after it, whose listing goes on at cursor "next". */
  function OpenPage(id: string): Fetch<ThreadItem>
  {
    Got(Page([ThreadItem(Blank(id), 0, None)], Some("next")))
  }

  /**
   * A session over two unstarted videos with a budget of one unit fetches
   * two pages and writes the comment of each: the first harvest stops at the
   * boundary, reports 0 units, and the second video is offered the same unit.
   * Both entries are left unfinished at their next cursor.
   */
  lemma SessionOverspends()
    ensures var svc := Service(map[("A", None) := OpenPage("A"), ("B", None) := OpenPage("B")], map[]);
      var vs := [NewVideo("A"), NewVideo("B")];
      var s := Drive(svc, vs, 0, 0, 1);
      && DrivePages(svc, vs, 0, 0, 1) == 2
      && s.written == [TopLevel(Blank("A"), 0, "A"), TopLevel(Blank("B"), 0, "B")]
      && s.videos == [Video("A", false, Some("next")), Video("B", false, Some("next"))]
  {
    var svc := Service(map[("A", None) := OpenPage("A"), ("B", None) := OpenPage("B")], map[]);
    var vs := [NewVideo("A"), NewVideo("B")];
    assert ThreadPage(svc, "A", None) == OpenPage("A");
    assert ThreadPage(svc, "B", None) == OpenPage("B");
    var hA := HarvestVideo(svc, "A", None, 1);
    assert hA.result == Harvest(Used(0), Some("next"), 1, 0, false) && hA.written == [TopLevel(Blank("A"), 0, "A")];
    assert ThreadPages(svc, "A", None, 0, 1, 0, 0) == 1;
    var v0 := VisitEntry(svc, vs, 0, 0, 1);
    assert !v0.stop && v0.used == 0 && v0.videos == [Video("A", false, Some("next")), NewVideo("B")];
    var hB := HarvestVideo(svc, "B", None, 1);
    assert hB.result == Harvest(Used(0), Some("next"), 1, 0, false) && hB.written == [TopLevel(Blank("B"), 0, "B")];
    assert ThreadPages(svc, "B", None, 0, 1, 0, 0) == 1;
  }

  // ---------------------------------------------------------------- resuming

  /**
   * Video "V": one thread page, with no next cursor, holding one thread that
   * declares 10 replies; its replies come in three pages r1, r2, r3.
   */
  function ReplyChain(): Service
  {
    Service(
      map[("V", None) := Got(Page([ThreadItem(Blank("p"), 10, None)], None))],
      map[("p", None) := Got(Page([Blank("r1")], Some("t2"))),
          ("p", Some("t2")) := Got(Page([Blank("r2")], Some("t3"))),
          ("p", Some("t3")) := Got(Page([Blank("r3")], None))])
  }

  /**
   * Harvesting in two sessions is not the same as harvesting once with their
   * combined budget.  A reply walk that meets the budget hands back the
   * cursor of its thread page, so the resumed harvest walks that thread's
   * replies again from the first reply page and pays for them again: with 2
   * units per session reply r2 is never reached, while 4 units at once reach
   * it.  A session leaves the ledger exactly as it found it, so every later
   * session repeats the same walk and the video never finishes.
   */
  lemma ResumeRepeatsReplies()
    ensures var svc := ReplyChain();
      var whole := HarvestVideo(svc, "V", None, 4);
      var first := HarvestVideo(svc, "V", None, 2);
      var again := HarvestVideo(svc, "V", first.result.nextPageToken, 2);
      && Reply(Blank("r2")) in whole.written
      && first.result == Harvest(Used(2), None, 1, 1, false)
      && again == first
      && Reply(Blank("r2")) !in first.written + again.written
      && Drive(svc, [NewVideo("V")], 0, 0, 2) == Session([NewVideo("V")], first.written)
  {
    var svc := ReplyChain();
    var top := TopLevel(Blank("p"), 10, "V");
    ReplyChainWalks();
    var whole := HarvestVideo(svc, "V", None, 4);
    assert whole.written == [top, Reply(Blank("r1")), Reply(Blank("r2")), Reply(Blank("r3"))];
    var first := HarvestVideo(svc, "V", None, 2);
    assert first.written == [top, Reply(Blank("r1"))];
  }

  /** The answers of ReplyChain, and its reply walks with 3 units and with 1. */
  lemma ReplyChainWalks()
    ensures ThreadPage(ReplyChain(), "V", None) == Got(Page([ThreadItem(Blank("p"), 10, None)], None))
    ensures RepliesOf(ReplyChain(), "p", 3)
         == ReplyWalk(Used(3), 3, [Reply(Blank("r1")), Reply(Blank("r2")), Reply(Blank("r3"))])
    ensures RepliesOf(ReplyChain(), "p", 1) == ReplyWalk(Used(1), 1, [Reply(Blank("r1"))])
  {
    var svc := ReplyChain();
    assert ReplyPage(svc, "p", None) == Got(Page([Blank("r1")], Some("t2")));
    assert ReplyPage(svc, "p", Some("t2")) == Got(Page([Blank("r2")], Some("t3")));
    assert ReplyPage(svc, "p", Some("t3")) == Got(Page([Blank("r3")], None));
  }
}
