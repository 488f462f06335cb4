/**
 * The listing side of src/data_acquisition.py: save_playlist_videos builds
 * the videos ledger from a playlist, save_channel_playlists streams a
 * channel's playlists into a JSON array.  Both follow a listing page after
 * page until a page carries no cursor; a failing request ends the listing.
 */
module Playlists {
  import opened Options
  import opened Remote
  import opened Checkpoint

  /**
   * The items of a listing gathered from the k-th request on (request j being
   * answered by pages[j], a request past the end failing), and whether the
   * listing reached a page without a cursor.
   */
  datatype Listing<T> = Listing(items: seq<T>, complete: bool)

  function Collect<T>(pages: seq<Fetch<T>>, k: nat): Listing<T>
    decreases |pages| - k
  {
    if k >= |pages| then Listing([], false)
    else match pages[k]
      case Got(p) =>
        if Falsy(p.nextPageToken) then Listing(p.items, true)
        else
          var rest := Collect(pages, k + 1);
          Listing(p.items + rest.items, rest.complete)
      case _ => Listing([], false)
  }

  /** Pages k..m are all answered, only the last without a cursor. */
  predicate EndsAt<T>(pages: seq<Fetch<T>>, k: nat, m: nat)
  {
    && k <= m < |pages|
    && (forall j :: k <= j < m ==> pages[j].Got? && !Falsy(pages[j].page.nextPageToken))
    && pages[m].Got? && Falsy(pages[m].page.nextPageToken)
  }

  /** The items of pages k..m-1, in order. */
  function ItemsOf<T>(pages: seq<Fetch<T>>, k: nat, m: nat): seq<T>
    requires k <= m <= |pages|
    requires forall j :: k <= j < m ==> pages[j].Got?
    decreases m - k
  {
    if k == m then [] else pages[k].page.items + ItemsOf(pages, k + 1, m)
  }

  /**
   * A listing is complete exactly when its pages end properly, and then it
   * holds every item of every page, in order.
   */
  lemma {:induction false} CollectComplete<T>(pages: seq<Fetch<T>>, k: nat, m: nat)
    requires EndsAt(pages, k, m)
    ensures Collect(pages, k) == Listing(ItemsOf(pages, k, m + 1), true)
    decreases m - k
  {
    if k < m {
      CollectComplete(pages, k + 1, m);
    }
  }

  lemma {:induction false} CompleteEnds<T>(pages: seq<Fetch<T>>, k: nat) returns (m: nat)
    requires Collect(pages, k).complete
    ensures EndsAt(pages, k, m)
    decreases |pages| - k
  {
    if Falsy(pages[k].page.nextPageToken) {
      m := k;
    } else {
      m := CompleteEnds(pages, k + 1);
    }
  }

  // ---------------------------------------------------------------- playlist videos

  /** The ledger save_playlist_videos writes: one fresh entry per video id. */
  function Ledger(ids: seq<string>): (vs: seq<Video>)
    ensures |vs| == |ids|
    ensures forall j :: 0 <= j < |ids| ==> vs[j] == NewVideo(ids[j])
  {
    seq(|ids|, j requires 0 <= j < |ids| => NewVideo(ids[j]))
  }

  /** A freshly built ledger reports every video as not started. */
  lemma {:induction false} LedgerUndone(ids: seq<string>)
    ensures CountStatus(Ledger(ids), Undone) == |ids|
    ensures CountStatus(Ledger(ids), Done) == 0 && CountStatus(Ledger(ids), HalfWay) == 0
  {
    if ids != [] {
      var n := |ids| - 1;
      assert Ledger(ids)[..n] == Ledger(ids[..n]);
      LedgerUndone(ids[..n]);
    }
  }

  /**
   * Lists a playlist's videos page by page into a fresh ledger.  Returns the
   * ledger the file is overwritten with, or None when the file is left alone:
   * it exists and may not be overwritten, or the listing failed.
   */
  method SavePlaylistVideos(pages: seq<Fetch<string>>, fileExists: bool, overwrite: bool) returns (saved: Option<seq<Video>>)
    ensures fileExists && !overwrite ==> saved.None?
    ensures !(fileExists && !overwrite) ==>
      saved == (var l := Collect(pages, 0); if l.complete then Some(Ledger(l.items)) else None)
  {
    if fileExists && !overwrite {
      return None;
    }
    var videos: seq<Video> := [];
    ghost var ids: seq<string> := [];
    var k := 0;
    while true
      invariant k <= |pages| && videos == Ledger(ids)
      invariant var l0 := Collect(pages, 0); var l := Collect(pages, k);
        l0.complete == l.complete && (l.complete ==> l0.items == ids + l.items)
      decreases |pages| - k
    {
      if k == |pages| {
        return None;
      }
      match pages[k]
      case Got(p) =>
        var j := 0;
        while j < |p.items|
          invariant 0 <= j <= |p.items| && videos == Ledger(ids + p.items[..j])
        {
          assert ids + p.items[..j + 1] == (ids + p.items[..j]) + [p.items[j]];
          videos := videos + [NewVideo(p.items[j])];
          j := j + 1;
        }
        assert p.items[..j] == p.items;
        ids := ids + p.items;
        k := k + 1;
        if Falsy(p.nextPageToken) {
          return Some(videos);
        }
      case _ =>
        return None;
    }
  }

  // ---------------------------------------------------------------- channel playlists

  /** A playlist as listed: its id, and a title and description the service may omit. */
  datatype PlaylistItem = PlaylistItem(id: string, title: Option<string>, description: Option<string>)

  /** A playlist as written, a missing title or description written empty. */
  datatype PlaylistRecord = PlaylistRecord(id: string, title: string, description: string)

  function OrEmpty(s: Option<string>): string
  {
    if s.Some? then s.value else ""
  }

  function RecordsOf(items: seq<PlaylistItem>): (rs: seq<PlaylistRecord>)
    ensures |rs| == |items|
    ensures forall j :: 0 <= j < |items| ==>
      rs[j] == PlaylistRecord(items[j].id, OrEmpty(items[j].title), OrEmpty(items[j].description))
  {
    seq(|items|, j requires 0 <= j < |items| =>
      PlaylistRecord(items[j].id, OrEmpty(items[j].title), OrEmpty(items[j].description)))
  }

  /** The pieces of the JSON array file, in the order they are written. */
  datatype Chunk = Open | Separator | Entry(record: PlaylistRecord) | Close

  /** The records of an array body, each but the first preceded by a separator. */
  function Body(rs: seq<PlaylistRecord>): seq<Chunk>
  {
    if rs == [] then []
    else Body(rs[..|rs| - 1]) + (if |rs| == 1 then [] else [Separator]) + [Entry(rs[|rs| - 1])]
  }

  /** The file's pieces: the array opened, its body, and the closing bracket only if the listing completed. */
  function Render(rs: seq<PlaylistRecord>, closed: bool): seq<Chunk>
  {
    [Open] + Body(rs) + (if closed then [Close] else [])
  }

  /**
   * The body alternates records and separators: record t sits at position
   * 2t and a separator between each two, so the records read back in order.
   */
  lemma {:induction false} BodyLayout(rs: seq<PlaylistRecord>)
    ensures rs == [] ==> Body(rs) == []
    ensures rs != [] ==> |Body(rs)| == 2 * |rs| - 1
    ensures forall t :: 0 <= t < |rs| ==> Body(rs)[2 * t] == Entry(rs[t])
    ensures forall t :: 0 <= t < |rs| - 1 ==> Body(rs)[2 * t + 1] == Separator
  {
    if rs != [] {
      var n := |rs| - 1;
      BodyLayout(rs[..n]);
      forall t | 0 <= t < |rs|
        ensures Body(rs)[2 * t] == Entry(rs[t])
      {
        if t < n {
          assert Body(rs)[2 * t] == Body(rs[..n])[2 * t];
        }
      }
      forall t | 0 <= t < |rs| - 1
        ensures Body(rs)[2 * t + 1] == Separator
      {
        if t < n - 1 {
          assert Body(rs)[2 * t + 1] == Body(rs[..n])[2 * t + 1];
        }
      }
    }
  }

  function RecordOf(item: PlaylistItem): PlaylistRecord
  {
    PlaylistRecord(item.id, OrEmpty(item.title), OrEmpty(item.description))
  }

  lemma AppendRecord(items: seq<PlaylistItem>, item: PlaylistItem)
    ensures Body(RecordsOf(items + [item]))
         == Body(RecordsOf(items)) + (if items == [] then [] else [Separator]) + [Entry(RecordOf(item))]
  {
    assert RecordsOf(items + [item])[..|items|] == RecordsOf(items);
  }

  /** The array as left open: the closing bracket is missing. */
  lemma RenderOpen(rs: seq<PlaylistRecord>, out: seq<Chunk>)
    requires out == [Open] + Body(rs)
    ensures out == Render(rs, false) && out + [Close] == Render(rs, true)
  {
  }

  /** Writes one page's playlists after those already written, separating each from the one before. */
  method WriteEntries(out: seq<Chunk>, first: bool, ghost before: seq<PlaylistItem>, page: seq<PlaylistItem>)
    returns (out': seq<Chunk>, first': bool)
    requires out == [Open] + Body(RecordsOf(before)) && first == (before == [])
    ensures out' == [Open] + Body(RecordsOf(before + page)) && first' == (before + page == [])
  {
    out', first' := out, first;
    ghost var seen := before;
    var j := 0;
    while j < |page|
      invariant 0 <= j <= |page| && seen == before + page[..j]
      invariant out' == [Open] + Body(RecordsOf(seen)) && first' == (seen == [])
    {
      AppendRecord(seen, page[j]);
      if !first' {
        out' := out' + [Separator];
      }
      out' := out' + [Entry(RecordOf(page[j]))];
      first' := false;
      assert before + page[..j + 1] == seen + [page[j]];
      seen := seen + [page[j]];
      j := j + 1;
    }
    assert page[..j] == page;
  }

  /**
   * Streams a channel's playlists into the JSON array file.  Returns the
   * pieces the file ends up holding, or None when it exists and may not be
   * overwritten.  A failing request leaves the array unclosed.
   */
  method SaveChannelPlaylists(pages: seq<Fetch<PlaylistItem>>, fileExists: bool, overwrite: bool) returns (file: Option<seq<Chunk>>)
    ensures fileExists && !overwrite ==> file.None?
    ensures !(fileExists && !overwrite) ==>
      file == (var l := Collect(pages, 0); Some(Render(RecordsOf(l.items), l.complete)))
  {
    if fileExists && !overwrite {
      return None;
    }
    var out := [Open];
    var first := true;
    ghost var l0 := Collect(pages, 0);
    ghost var items: seq<PlaylistItem> := [];
    var k := 0;
    while true
      invariant k <= |pages| && out == [Open] + Body(RecordsOf(items)) && first == (items == [])
      invariant var l := Collect(pages, k); l0.complete == l.complete && l0.items == items + l.items
      decreases |pages| - k
    {
      if k == |pages| {
        assert l0 == Listing(items, false);
        RenderOpen(RecordsOf(items), out);
        return Some(out);
      }
      match pages[k]
      case Got(p) =>
        ghost var rest := Collect(pages, k + 1);
        assert Collect(pages, k) == if Falsy(p.nextPageToken) then Listing(p.items, true)
          else Listing(p.items + rest.items, rest.complete);
        assert Falsy(p.nextPageToken) ==> l0 == Listing(items + p.items, true);
        assert !Falsy(p.nextPageToken) ==> l0.items == (items + p.items) + rest.items;
        out, first := WriteEntries(out, first, items, p.items);
        items := items + p.items;
        k := k + 1;
        if Falsy(p.nextPageToken) {
          RenderOpen(RecordsOf(items), out);
          return Some(out + [Close]);
        }
      case _ =>
        assert l0 == Listing(items, false);
        RenderOpen(RecordsOf(items), out);
        return Some(out);
    }
  }
}
