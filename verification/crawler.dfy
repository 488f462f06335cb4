/**
 * The stateful side of src/data_acquisition.py: the comment file the crawl
 * appends to and the videos ledger it reads and rewrites, with the loops of
 * save_comment_replies, save_video_comments, save_all_videos_comments,
 * add_video and get_videos_progress proved equal to the reference semantics
 * of module CommentCrawl and module Checkpoint.
 */
module Acquisition {
  import opened Options
  import opened Remote
  import opened Checkpoint
  import opened CommentCrawl

  class Crawler {
    /** The NDJSON comment file: every record ever appended, in order. */
    var sink: seq<Record>
    /** The videos JSON file. */
    var videos: seq<Video>

    constructor(ledger: seq<Video>)
      ensures videos == ledger && sink == []
    {
      videos := ledger;
      sink := [];
    }

    /** Appends the replies of one page, one record per comment. */
    method WriteReplies(cs: seq<Comment>)
      modifies this`sink
      ensures sink == old(sink) + Replies(cs)
    {
      var j := 0;
      while j < |cs|
        invariant 0 <= j <= |cs|
        invariant sink == old(sink) + Replies(cs[..j])
      {
        assert Replies(cs[..j + 1]) == Replies(cs[..j]) + [Reply(cs[j])];
        sink := sink + [Reply(cs[j])];
        j := j + 1;
      }
      assert cs[..j] == cs;
    }

    /**
     * Fetches and appends every reply to one top-level comment, spending at
     * most `quota` units; returns the units spent (or exhaustion) and the
     * number of replies written.
     */
    method SaveCommentReplies(svc: Service, parentId: string, quota: int) returns (used: Usage, count: nat)
      modifies this`sink
      ensures var w := RepliesOf(svc, parentId, quota);
        used == w.used && count == w.count && sink == old(sink) + w.written
    {
      var spent: nat := 0;
      count := 0;
      var token: Option<Token> := None;
      while spent < quota
        invariant var w0 := RepliesOf(svc, parentId, quota);
          var w := WalkReplies(svc, parentId, token, spent, quota, count);
          w.used == w0.used && w.count == w0.count && old(sink) + w0.written == sink + w.written
        decreases quota - spent
      {
        match ReplyPage(svc, parentId, token)
        case QuotaExceeded =>
          return Exhausted, count;
        case Failed =>
          return Used(spent), count;
        case Got(p) =>
          spent := spent + 1;
          token := p.nextPageToken;
          WriteReplies(p.items);
          count := count + |p.items|;
          if Falsy(token) {
            break;
          }
      }
      used := Used(spent);
    }

    /**
     * Appends one comment thread: the top-level comment, then its replies,
     * fetched page by page when it declares more than five, else the
     * embedded ones.  Returns how the page loop goes on, or the result the
     * harvest returns early with.
     */
    method SaveThread(svc: Service, videoId: string, token: Option<Token>, quota: int,
                      used: nat, comments: nat, replies: nat, item: ThreadItem) returns (st: PageState)
      modifies this`sink
      ensures var step := ItemStep(svc, videoId, token, quota, used, comments, replies, item);
        st == step.0 && sink == old(sink) + step.1
    {
      sink := sink + [TopLevel(item.topLevelComment, item.totalReplyCount, videoId)];
      if item.totalReplyCount > InlineReplyLimit {
        var spent, count := SaveCommentReplies(svc, item.topLevelComment.id, quota - used);
        match spent
        case Exhausted =>
          return Stopped(Harvest(Exhausted, token, comments + 1, replies + count, false));
        case Used(n) =>
          if used + n >= quota {
            return Stopped(Harvest(Used(used + n), token, comments + 1, replies + count, false));
          }
          return Going(used + n, comments + 1, replies + count);
      } else if item.replies.Some? {
        WriteReplies(item.replies.value);
        return Going(used, comments + 1, replies + item.totalReplyCount);
      }
      return Going(used, comments + 1, replies);
    }

    /** Appends the threads of one fetched page in order, stopping at the first early return. */
    method SavePage(svc: Service, videoId: string, token: Option<Token>, quota: int,
                    used: nat, comments: nat, replies: nat, items: seq<ThreadItem>) returns (st: PageState)
      modifies this`sink
      ensures var page := ProcessItems(svc, videoId, token, quota, Going(used, comments, replies), items);
        st == page.0 && sink == old(sink) + page.1
    {
      ghost var page := ProcessItems(svc, videoId, token, quota, Going(used, comments, replies), items);
      st := Going(used, comments, replies);
      var k := 0;
      while k < |items|
        invariant 0 <= k <= |items| && st.Going?
        invariant var rest := ProcessItems(svc, videoId, token, quota, st, items[k..]);
          rest.0 == page.0 && old(sink) + page.1 == sink + rest.1
      {
        ghost var before := sink;
        var next := SaveThread(svc, videoId, token, quota, st.used, st.comments, st.replies, items[k]);
        ProcessItemsResume(svc, videoId, token, quota, st, items, k, before, sink, next);
        st := next;
        if st.Stopped? {
          return;
        }
        k := k + 1;
      }
    }

    /**
     * One round of the page loop: fetches the page at `token`, appends its
     * threads, and either returns the harvest's result (`finished`) or the
     * cursor, units and counts the loop goes on with.
     */
    method SaveThreadsPage(svc: Service, videoId: string, token: Option<Token>, used: nat, quota: int,
                           comments: nat, replies: nat)
      returns (finished: bool, h: Harvest, next: Option<Token>, used': nat, comments': nat, replies': nat)
      requires used < quota
      modifies this`sink
      ensures var w := WalkThreads(svc, videoId, token, used, quota, comments, replies);
        && (finished ==> h == w.result && sink == old(sink) + w.written)
        && (!finished ==>
              var rest := WalkThreads(svc, videoId, next, used', quota, comments', replies');
              used < used' && rest.result == w.result && old(sink) + w.written == sink + rest.written)
    {
      next, used', comments', replies' := token, used, comments, replies;
      h := Harvest(Used(used), token, comments, replies, false);
      match ThreadPage(svc, videoId, token)
      case QuotaExceeded =>
        return true, Harvest(Exhausted, token, comments, replies, false), next, used', comments', replies';
      case Failed =>
        return true, h, next, used', comments', replies';
      case Got(p) =>
        WalkThreadsPage(svc, videoId, token, used, quota, comments, replies, p);
        var st := SavePage(svc, videoId, token, quota, used + 1, comments, replies, p.items);
        match st
        case Stopped(result) =>
          return true, result, next, used', comments', replies';
        case Going(u, c, r) =>
          if Falsy(p.nextPageToken) {
            return true, Finish(u, p.nextPageToken, c, r, quota), next, used', comments', replies';
          }
          return false, h, p.nextPageToken, u, c, r;
    }

    /**
     * Harvests one video's comment threads from cursor `start` within `quota`
     * units, appending each top-level comment followed by its replies.
     */
    method SaveVideoComments(svc: Service, videoId: string, start: Option<Token>, quota: int) returns (h: Harvest)
      modifies this`sink
      ensures var w := HarvestVideo(svc, videoId, start, quota);
        h == w.result && sink == old(sink) + w.written
    {
      var used: nat := 0;
      var comments: nat := 0;
      var replies: nat := 0;
      var token := start;
      ghost var w0 := HarvestVideo(svc, videoId, start, quota);
      while used < quota
        invariant var w := WalkThreads(svc, videoId, token, used, quota, comments, replies);
          w.result == w0.result && old(sink) + w0.written == sink + w.written
        decreases quota - used
      {
        var finished;
        finished, h, token, used, comments, replies := SaveThreadsPage(svc, videoId, token, used, quota, comments, replies);
        if finished {
          return;
        }
      }
      return Finish(used, token, comments, replies, quota);
    }

    /**
     * Visits ledger entry i with `used` units of the day's `quota` spent,
     * harvesting it unless it is finished; returns the units spent afterwards
     * and whether the video loop stops.
     */
    method VisitVideo(svc: Service, i: nat, used: nat, quota: int) returns (spent: nat, stop: bool)
      requires i < |videos|
      modifies this
      ensures var v := VisitEntry(svc, old(videos), i, used, quota);
        videos == v.videos && sink == old(sink) + v.written && spent == v.used && stop == v.stop
    {
      var video := videos[i];
      if video.done {
        return used, false;
      }
      var h := SaveVideoComments(svc, video.videoId, video.nextPageToken, quota - used);
      videos := videos[i := video.(nextPageToken := h.nextPageToken)];
      match h.used
      case Exhausted =>
        return used, true;
      case Used(n) =>
        if used + n >= quota {
          return used + n, true;
        }
        if h.done {
          videos := videos[i := videos[i].(done := true)];
        }
        return used + n, false;
    }

    /**
     * One crawl session over the ledger: harvests every unfinished video in
     * order within the day's budget, storing each one's cursor and marking
     * completed ones done, until the budget is met or exhausted.
     */
    method SaveAllVideosComments(svc: Service, debugging: bool)
      modifies this
      ensures var s := Crawl(svc, old(videos), debugging);
        videos == s.videos && sink == old(sink) + s.written
    {
      var quota := DailyQuota(debugging);
      var used: nat := 0;
      var i := 0;
      while i < |videos|
        invariant i <= |videos| == |old(videos)|
        invariant var s0 := Crawl(svc, old(videos), debugging);
          var s := Drive(svc, videos, i, used, quota);
          s.videos == s0.videos && old(sink) + s0.written == sink + s.written
        decreases |videos| - i
      {
        var stop;
        used, stop := VisitVideo(svc, i, used, quota);
        if stop {
          break;
        }
        i := i + 1;
      }
    }

    /** Adds a video id, stripped of surrounding whitespace, unless the ledger has it. */
    method AddVideo(videoId: string)
      modifies this`videos
      ensures videos == Added(old(videos), Strip(videoId))
    {
      var id := Strip(videoId);
      Register(id);
    }

    /** Appends an unstarted entry for id unless the ledger already holds it. */
    method Register(id: string)
      modifies this`videos
      ensures videos == Added(old(videos), id)
    {
      var j := 0;
      while j < |videos|
        invariant 0 <= j <= |videos|
        invariant forall t :: 0 <= t < j ==> videos[t].videoId != id
      {
        if videos[j].videoId == id {
          assert HasVideo(videos, id);
          return;
        }
        j := j + 1;
      }
      assert !HasVideo(videos, id);
      videos := videos + [NewVideo(id)];
    }

    /** Counts the finished, resumable and unstarted entries of the ledger. */
    method GetVideosProgress() returns (p: Progress)
      ensures p == Progress(CountStatus(videos, Done), CountStatus(videos, HalfWay), CountStatus(videos, Undone))
      ensures p.done + p.halfWay + p.undone == |videos|
    {
      p := Progress(0, 0, 0);
      var j := 0;
      while j < |videos|
        invariant 0 <= j <= |videos|
        invariant p == Progress(CountStatus(videos[..j], Done), CountStatus(videos[..j], HalfWay), CountStatus(videos[..j], Undone))
      {
        assert videos[..j + 1][..j] == videos[..j];
        if videos[j].done {
          p := p.(done := p.done + 1);
        } else if videos[j].nextPageToken.Some? {
          p := p.(halfWay := p.halfWay + 1);
        } else {
          p := p.(undone := p.undone + 1);
        }
        j := j + 1;
      }
      assert videos[..j] == videos;
      ProgressPartition(videos);
    }
  }
}
