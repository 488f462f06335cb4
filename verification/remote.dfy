/**
 * The remote video service as the crawl of src/data_acquisition.py sees it:
 * paginated listings answered page by page, each answer a page, a quota
 * error (HTTP 403 "quotaExceeded") or some other failure.
 */
module Remote {
  import opened Options

  /** An opaque page cursor. */
  type Token = string

  /** Python's `not token`: no cursor, or an empty one. */
  predicate Falsy(t: Option<Token>)
  {
    t.None? || t.value == ""
  }

  /** The comment fields the crawl asks for. */
  datatype Comment = Comment(
    id: string,
    channelId: string,
    textDisplay: string,
    authorDisplayName: string,
    authorChannelId: string,
    likeCount: int,
    publishedAt: string,
    parentId: Option<string>)

  /**
   * One comment thread: the top-level comment, the declared number of
   * replies and, when the service inlined them, the embedded replies.
   */
  datatype ThreadItem = ThreadItem(topLevelComment: Comment, totalReplyCount: nat, replies: Option<seq<Comment>>)

  datatype Page<T> = Page(items: seq<T>, nextPageToken: Option<Token>)

  /** The outcome of one page request. */
  datatype Fetch<T> = Got(page: Page<T>) | QuotaExceeded | Failed

  /**
   * The service's answers, keyed by (video id, cursor) for comment threads
   * and by (top-level comment id, cursor) for replies.  A request the maps
   * do not answer fails.
   */
  datatype Service = Service(
    threads: map<(string, Option<Token>), Fetch<ThreadItem>>,
    replies: map<(string, Option<Token>), Fetch<Comment>>)

  function ThreadPage(svc: Service, videoId: string, token: Option<Token>): Fetch<ThreadItem>
  {
    if (videoId, token) in svc.threads then svc.threads[(videoId, token)] else Failed
  }

  function ReplyPage(svc: Service, parentId: string, token: Option<Token>): Fetch<Comment>
  {
    if (parentId, token) in svc.replies then svc.replies[(parentId, token)] else Failed
  }

  /** One line of the NDJSON comment file. */
  datatype Record =
    | TopLevel(comment: Comment, totalReplyCount: nat, videoId: string)
    | Reply(comment: Comment)

  function Replies(cs: seq<Comment>): (rs: seq<Record>)
    ensures |rs| == |cs|
    ensures forall t :: 0 <= t < |rs| ==> rs[t] == Reply(cs[t])
  {
    seq(|cs|, t requires 0 <= t < |cs| => Reply(cs[t]))
  }

  /** Units a harvest reports: a count, or the exhaustion the source signals with float('inf'). */
  datatype Usage = Used(n: nat) | Exhausted
}
