/**
 * The per-video progress ledger of src/data_acquisition.py (the videos JSON
 * file): its entries and the pure parts of add_video and get_videos_progress.
 */
module Checkpoint {
  import opened Options
  import opened Remote

  datatype Video = Video(videoId: string, done: bool, nextPageToken: Option<Token>)

  /** The entry save_playlist_videos and add_video create for a new video. */
  function NewVideo(videoId: string): (v: Video)
    ensures v.videoId == videoId && !v.done && v.nextPageToken.None?
  {
    Video(videoId, false, None)
  }

  /** The characters Python's str.isspace() accepts. */
  predicate IsSpace(c: char)
  {
    || ('\U{9}' <= c <= '\U{D}')
    || ('\U{1C}' <= c <= '\U{20}')
    || c == '\U{85}' || c == '\U{A0}' || c == '\U{1680}'
    || ('\U{2000}' <= c <= '\U{200A}')
    || c == '\U{2028}' || c == '\U{2029}' || c == '\U{202F}' || c == '\U{205F}' || c == '\U{3000}'
  }

  function TrimStart(s: string): (r: string)
    ensures |r| <= |s| && r == s[|s| - |r|..]
  {
    if s != [] && IsSpace(s[0]) then TrimStart(s[1..]) else s
  }

  function TrimEnd(s: string): (r: string)
    ensures |r| <= |s| && r == s[..|r|]
  {
    if s != [] && IsSpace(s[|s| - 1]) then TrimEnd(s[..|s| - 1]) else s
  }

  /** TrimStart drops exactly the leading whitespace. */
  lemma {:induction false} TrimStartSpaces(s: string)
    ensures var r := TrimStart(s);
      && (r == [] || !IsSpace(r[0]))
      && (forall k :: 0 <= k < |s| - |r| ==> IsSpace(s[k]))
  {
    if s != [] && IsSpace(s[0]) {
      TrimStartSpaces(s[1..]);
      var r := TrimStart(s);
      forall k | 1 <= k < |s| - |r|
        ensures IsSpace(s[k])
      {
        assert s[k] == s[1..][k - 1];
      }
    }
  }

  /** TrimEnd drops exactly the trailing whitespace. */
  lemma {:induction false} TrimEndSpaces(s: string)
    ensures var r := TrimEnd(s);
      && (r == [] || !IsSpace(r[|r| - 1]))
      && (forall k :: |r| <= k < |s| ==> IsSpace(s[k]))
  {
    if s != [] && IsSpace(s[|s| - 1]) {
      TrimEndSpaces(s[..|s| - 1]);
      var r := TrimEnd(s);
      forall k | |r| <= k < |s| - 1
        ensures IsSpace(s[k])
      {
        assert s[k] == s[..|s| - 1][k];
      }
    }
  }

  /** Python's str.strip(): drop the whitespace at both ends. */
  function Strip(s: string): string
  {
    TrimEnd(TrimStart(s))
  }

  /** s[a..b] is what remains of s once whitespace is dropped from both ends. */
  predicate StrippedAt(s: string, a: int, b: int)
  {
    && 0 <= a <= b <= |s|
    && Strip(s) == s[a..b]
    && (forall k :: 0 <= k < a ==> IsSpace(s[k]))
    && (forall k :: b <= k < |s| ==> IsSpace(s[k]))
    && (a < b ==> !IsSpace(s[a]) && !IsSpace(s[b - 1]))
  }

  lemma StripShape(s: string) returns (a: nat, b: nat)
    ensures StrippedAt(s, a, b)
  {
    a, b := StripSlice(s);
    StripEnds(s);
    if a < b {
      assert Strip(s)[0] == s[a] && Strip(s)[|Strip(s)| - 1] == s[b - 1];
    }
  }

  /** The stripped id is a slice of the input with only whitespace outside it. */
  lemma StripSlice(s: string) returns (a: nat, b: nat)
    ensures a <= b <= |s| && Strip(s) == s[a..b]
    ensures forall k :: 0 <= k < a ==> IsSpace(s[k])
    ensures forall k :: b <= k < |s| ==> IsSpace(s[k])
  {
    var t := TrimStart(s);
    var r := Strip(s);
    a, b := |s| - |t|, |s| - |t| + |r|;
    assert r == TrimEnd(t) && |r| <= |t| && r == t[..|r|];
    PrefixOfSuffix(s, a, t, r);
    TrimStartSpaces(s);
    TrailingSpaces(s, a, t);
  }

  /** A prefix r of the suffix of s from a is the slice of s from a. */
  lemma PrefixOfSuffix(s: string, a: nat, t: string, r: string)
    requires a <= |s| && t == s[a..] && |r| <= |t| && r == t[..|r|]
    ensures r == s[a..a + |r|]
  {
  }

  /** Whitespace TrimEnd drops from a suffix t of s is whitespace of s. */
  lemma TrailingSpaces(s: string, a: nat, t: string)
    requires a <= |s| && t == s[a..]
    ensures forall k :: a + |TrimEnd(t)| <= k < |s| ==> IsSpace(s[k])
  {
    TrimEndSpaces(t);
    forall k | a + |TrimEnd(t)| <= k < |s|
      ensures IsSpace(s[k])
    {
      assert s[k] == t[k - a];
    }
  }

  /** The stripped id neither starts nor ends with whitespace. */
  lemma StripEnds(s: string)
    ensures Strip(s) == [] || (!IsSpace(Strip(s)[0]) && !IsSpace(Strip(s)[|Strip(s)| - 1]))
  {
    var t := TrimStart(s);
    var r := TrimEnd(t);
    assert Strip(s) == r;
    TrimStartSpaces(s);
    TrimEndSpaces(t);
    if r != [] {
      assert r[0] == t[0] && !IsSpace(t[0]);
    }
  }

  /** A ledger entry's class in get_videos_progress. */
  datatype Status = Done | HalfWay | Undone

  function StatusOf(v: Video): Status
  {
    if v.done then Done else if v.nextPageToken.Some? then HalfWay else Undone
  }

  /** The number of entries of the given class. */
  function CountStatus(vs: seq<Video>, s: Status): nat
  {
    if vs == [] then 0
    else CountStatus(vs[..|vs| - 1], s) + (if StatusOf(vs[|vs| - 1]) == s then 1 else 0)
  }

  /** The three classes partition the ledger. */
  lemma {:induction false} ProgressPartition(vs: seq<Video>)
    ensures CountStatus(vs, Done) + CountStatus(vs, HalfWay) + CountStatus(vs, Undone) == |vs|
  {
    if vs != [] {
      ProgressPartition(vs[..|vs| - 1]);
    }
  }

  datatype Progress = Progress(done: nat, halfWay: nat, undone: nat)

  predicate HasVideo(vs: seq<Video>, videoId: string)
  {
    exists j :: 0 <= j < |vs| && vs[j].videoId == videoId
  }

  /** No two entries share a video id. */
  predicate UniqueIds(vs: seq<Video>)
  {
    forall j, k :: 0 <= j < k < |vs| ==> vs[j].videoId != vs[k].videoId
  }

  /** The ledger after add_video: unchanged when the id is present, else a fresh entry at the end. */
  function Added(vs: seq<Video>, videoId: string): seq<Video>
  {
    if HasVideo(vs, videoId) then vs else vs + [NewVideo(videoId)]
  }

  /**
   * Adding keeps every existing entry, leaves the id present, keeps ids
   * unique, and adding the same id again changes nothing.
   */
  lemma AddedFacts(vs: seq<Video>, videoId: string)
    ensures var ws := Added(vs, videoId);
      && ws[..|vs|] == vs
      && |ws| <= |vs| + 1
      && HasVideo(ws, videoId)
      && (UniqueIds(vs) ==> UniqueIds(ws))
      && Added(ws, videoId) == ws
  {
    var ws := Added(vs, videoId);
    if !HasVideo(vs, videoId) {
      assert ws[|vs|].videoId == videoId;
    }
  }
}
