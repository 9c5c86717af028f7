/**
  The sliding one-second frame window behind the frames-per-second figure
  (Sources/LinkedFrameList.swift).

  The original keeps a doubly linked chain of frame nodes with `head`,
  `tail` and a running `count`.  Here the chain from `head` to `tail` is the
  sequence `frames`, oldest first, so `frames[0]` is the head and the last
  element is the tail.
 */
module FrameList {

  /** Frames more than this many seconds older than the newest one are evicted. */
  const Horizon: real := 1.0

  /** The eviction guard: `head` is strictly more than one second older than `t`. */
  predicate Stale(head: real, t: real) {
    t - head > Horizon
  }

  /** Timestamps never decrease along `s` (the frame clock's promise). */
  predicate NonDecreasing(s: seq<real>) {
    forall i, j :: 0 <= i < j < |s| ==> s[i] <= s[j]
  }

  /**
    What the eviction loop leaves of `frames` when the newest timestamp is
    `t`: it drops frames from the head while the head is stale, and stops at
    the first head that is not stale.
   */
  function Evict(frames: seq<real>, t: real): seq<real>
  {
    if frames != [] && Stale(frames[0], t) then Evict(frames[1..], t) else frames
  }

  /**
    Eviction removes exactly the longest stale prefix: what is left is a
    suffix of `frames`, everything dropped was stale, and the new head (if
    any) is within the horizon.
   */
  lemma {:induction false} EvictDropsStalePrefix(frames: seq<real>, t: real)
    ensures |Evict(frames, t)| <= |frames|
    ensures Evict(frames, t) == frames[|frames| - |Evict(frames, t)|..]
    ensures forall i :: 0 <= i < |frames| - |Evict(frames, t)| ==> Stale(frames[i], t)
    ensures Evict(frames, t) == [] || !Stale(Evict(frames, t)[0], t)
  {
    if frames != [] && Stale(frames[0], t) {
      EvictDropsStalePrefix(frames[1..], t);
      var r := Evict(frames, t);
      assert frames[1..][|frames| - 1 - |r|..] == frames[|frames| - |r|..];
      forall i | 0 <= i < |frames| - |r| ensures Stale(frames[i], t) {
        if i > 0 {
          assert frames[i] == frames[1..][i - 1];
        }
      }
    }
  }

  /**
    The frames retained after appending the timestamps `ts`, in order, to an
    empty window: each append adds at the tail and then evicts from the head.
   */
  ghost function Window(ts: seq<real>): seq<real>
  {
    if ts == [] then [] else Evict(Window(ts[..|ts| - 1]) + [ts[|ts| - 1]], ts[|ts| - 1])
  }

  /** The window after appending `t` is the previous window with `t` appended and evicted. */
  lemma WindowStep(p: seq<real>, t: real)
    ensures Window(p + [t]) == Evict(Window(p) + [t], t)
  {
    assert (p + [t])[..|p + [t]| - 1] == p;
  }

  /**
    The window is always a suffix of what was appended, and after at least
    one append it ends with the newest timestamp: the new frame is never
    evicted by its own append, since `t - t = 0` is not more than a second.
   */
  lemma {:induction false} WindowSuffix(ts: seq<real>)
    ensures |Window(ts)| <= |ts| && Window(ts) == ts[|ts| - |Window(ts)|..]
    ensures ts != [] ==> Window(ts) != [] && Window(ts)[|Window(ts)| - 1] == ts[|ts| - 1]
  {
    if ts != [] {
      var p, t := ts[..|ts| - 1], ts[|ts| - 1];
      assert ts == p + [t];
      WindowStep(p, t);
      WindowSuffix(p);
      var u := Window(p) + [t];
      assert u == ts[|ts| - |u|..];
      EvictDropsStalePrefix(u, t);
      EvictKeepsFreshTail(u, t);
      SuffixOfSuffix(Evict(u, t), u, ts);
    }
  }

  /** A suffix of a suffix of `ts` is a suffix of `ts`. */
  lemma SuffixOfSuffix(e: seq<real>, u: seq<real>, ts: seq<real>)
    requires |u| <= |ts| && u == ts[|ts| - |u|..]
    requires |e| <= |u| && e == u[|u| - |e|..]
    ensures e == ts[|ts| - |e|..]
  {
  }

  /** A tail frame within the horizon survives eviction and stays the tail. */
  lemma {:induction false} EvictKeepsFreshTail(frames: seq<real>, t: real)
    requires frames != [] && !Stale(frames[|frames| - 1], t)
    ensures Evict(frames, t) != [] && Evict(frames, t)[|Evict(frames, t)| - 1] == frames[|frames| - 1]
  {
    if Stale(frames[0], t) {
      assert |frames| > 1;
      EvictKeepsFreshTail(frames[1..], t);
    }
  }

  /** Every frame of `s` before index `k` is stale with respect to `t`. */
  ghost predicate StaleBefore(s: seq<real>, k: int, t: real) {
    forall i :: 0 <= i < k && i < |s| ==> Stale(s[i], t)
  }

  /** Every frame of `s` from index `k` on is within the horizon of `t`. */
  ghost predicate FreshFrom(s: seq<real>, k: int, t: real) {
    forall i :: 0 <= i < |s| && k <= i ==> !Stale(s[i], t)
  }

  /** The timestamps of `s` that lie within one second before `t` (`t - x <= 1.0`), in order. */
  function Recent(s: seq<real>, t: real): (r: seq<real>)
    ensures |r| <= |s|
  {
    if s == [] then [] else (if Stale(s[0], t) then [] else [s[0]]) + Recent(s[1..], t)
  }

  /** A run of stale frames followed by a run of fresh frames filters to the fresh run. */
  lemma {:induction false} RecentOfSplit(s: seq<real>, k: nat, t: real)
    requires k <= |s| && StaleBefore(s, k, t) && FreshFrom(s, k, t)
    ensures Recent(s, t) == s[k..]
  {
    if s != [] {
      var k' := if k == 0 then 0 else k - 1;
      assert StaleBefore(s[1..], k', t) by {
        forall i | 0 <= i < k' && i < |s[1..]| ensures Stale(s[1..][i], t) {
          assert s[1..][i] == s[i + 1];
        }
      }
      assert FreshFrom(s[1..], k', t) by {
        forall i | k' <= i < |s[1..]| ensures !Stale(s[1..][i], t) {
          assert s[1..][i] == s[i + 1];
        }
      }
      RecentOfSplit(s[1..], k', t);
      if k == 0 {
        assert s == [s[0]] + s[1..];
      }
    }
  }

  /** Frames stale with respect to an earlier timestamp stay stale for a later one. */
  lemma StaleLater(s: seq<real>, k: int, t0: real, t: real)
    requires StaleBefore(s, k, t0) && t0 <= t
    ensures StaleBefore(s, k, t)
  {
  }

  /** A prefix of a non-decreasing sequence is non-decreasing. */
  lemma NonDecreasingPrefix(ts: seq<real>, n: nat)
    requires NonDecreasing(ts) && n <= |ts|
    ensures NonDecreasing(ts[..n])
  {
    forall i, j | 0 <= i < j < n ensures ts[..n][i] <= ts[..n][j] {
      assert ts[..n][i] == ts[i] && ts[..n][j] == ts[j];
    }
  }

  /** Staleness of the first `k` frames of a prefix carries over to the whole sequence. */
  lemma StaleBeforeOfPrefix(ts: seq<real>, n: nat, k: int, t: real)
    requires n <= |ts| && k <= n && StaleBefore(ts[..n], k, t)
    ensures StaleBefore(ts, k, t)
  {
    forall i | 0 <= i < k && i < |ts| ensures Stale(ts[i], t) {
      assert ts[i] == ts[..n][i];
    }
  }

  /** A stale run up to `kp`, followed in `ts[kp..]` by a stale run of length `m`, is a stale run up to `kp + m`. */
  lemma StaleBeforeJoin(ts: seq<real>, kp: nat, m: nat, t: real)
    requires kp + m <= |ts| && StaleBefore(ts, kp, t) && StaleBefore(ts[kp..], m, t)
    ensures StaleBefore(ts, kp + m, t)
  {
    forall i | kp <= i < kp + m ensures Stale(ts[i], t) {
      assert ts[i] == ts[kp..][i - kp];
    }
  }

  /** In a non-decreasing sequence, everything from a frame within the horizon on is within it too. */
  lemma FreshFromSorted(ts: seq<real>, k: nat, t: real)
    requires NonDecreasing(ts) && k < |ts| && !Stale(ts[k], t)
    ensures FreshFrom(ts, k, t)
  {
    forall i | k <= i < |ts| ensures !Stale(ts[i], t) {
      assert ts[k] <= ts[i];
    }
  }

  /**
    For non-decreasing timestamps the window is exactly the evicted-prefix /
    kept-suffix split: every frame that was evicted is stale with respect to
    the newest timestamp, and every retained frame is within the horizon.
   */
  lemma {:induction false} WindowSplit(ts: seq<real>)
    requires ts != [] && NonDecreasing(ts)
    ensures StaleBefore(ts, |ts| - |Window(ts)|, ts[|ts| - 1])
    ensures FreshFrom(ts, |ts| - |Window(ts)|, ts[|ts| - 1])
    decreases |ts|, 1
  {
    var p, t := ts[..|ts| - 1], ts[|ts| - 1];
    WindowSuffix(p);
    var kp := |p| - |Window(p)|;
    assert Window(p) + [t] == ts[kp..];
    EarlierFramesStale(ts);
    EvictSplit(ts, kp, t);
  }

  /**
    The frames evicted before the newest append were stale for the previous
    newest timestamp, so they are stale for the newest one too.
   */
  lemma {:induction false} EarlierFramesStale(ts: seq<real>)
    requires ts != [] && NonDecreasing(ts)
    ensures StaleBefore(ts, |ts| - 1 - |Window(ts[..|ts| - 1])|, ts[|ts| - 1])
    decreases |ts|, 0
  {
    var p := ts[..|ts| - 1];
    if p != [] {
      NonDecreasingPrefix(ts, |p|);
      WindowSplit(p);
      var kp := |p| - |Window(p)|;
      StaleLater(p, kp, p[|p| - 1], ts[|ts| - 1]);
      StaleBeforeOfPrefix(ts, |p|, kp, ts[|ts| - 1]);
    }
  }

  /**
    Evicting a sorted suffix `ts[kp..]` whose frames before `kp` are already
    stale leaves a split of the whole of `ts`: stale up to the new head,
    within the horizon from it on.
   */
  lemma EvictSplit(ts: seq<real>, kp: nat, t: real)
    requires kp < |ts| && NonDecreasing(ts) && StaleBefore(ts, kp, t) && !Stale(ts[|ts| - 1], t)
    ensures var e := Evict(ts[kp..], t);
      && |e| <= |ts| - kp
      && StaleBefore(ts, |ts| - |e|, t)
      && FreshFrom(ts, |ts| - |e|, t)
  {
    var u := ts[kp..];
    EvictDropsStalePrefix(u, t);
    EvictKeepsFreshTail(u, t);
    var e := Evict(u, t);
    assert StaleBefore(u, |u| - |e|, t);
    StaleBeforeJoin(ts, kp, |u| - |e|, t);
    assert e[0] == ts[|ts| - |e|];
    FreshFromSorted(ts, |ts| - |e|, t);
  }

  /**
    Window correctness: for non-decreasing timestamps the retained frames are
    exactly the appended timestamps within one second of the newest one, so
    their number is the count of such timestamps.
   */
  lemma WindowIsRecent(ts: seq<real>)
    requires ts != [] && NonDecreasing(ts)
    ensures Window(ts) == Recent(ts, ts[|ts| - 1])
  {
    WindowSuffix(ts);
    WindowSplit(ts);
    RecentOfSplit(ts, |ts| - |Window(ts)|, ts[|ts| - 1]);
  }

  /** The worked example: 0.0, 0.3, 0.6, 0.9, 1.2, 1.5 leaves the last four frames. */
  lemma ExampleWindow()
    ensures Window([0.0, 0.3, 0.6, 0.9, 1.2, 1.5]) == [0.6, 0.9, 1.2, 1.5]
  {
    var ts := [0.0, 0.3, 0.6, 0.9, 1.2, 1.5];
    assert NonDecreasing(ts);
    WindowIsRecent(ts);
    assert Recent(ts, 1.5) == [0.6, 0.9, 1.2, 1.5];
  }

  /**
    Out-of-order input: eviction stops at the first head within the horizon,
    so a later, older frame is kept although it is more than a second old.
   */
  lemma OutOfOrderKeepsExtra()
    ensures Window([1.0, 0.0, 2.0]) == [1.0, 0.0, 2.0]
    ensures |Recent([1.0, 0.0, 2.0], 2.0)| == 2
  {
    WindowStep([], 1.0);
    WindowStep([1.0], 0.0);
    WindowStep([1.0, 0.0], 2.0);
  }

  /** Boundary: a head exactly one second older than the new timestamp is kept. */
  lemma BoundaryKept(frames: seq<real>, t: real)
    requires frames != [] && t - frames[0] == 1.0
    ensures Evict(frames, t) == frames
  {
  }

  /**
    One append to the window of `p`: the result is the window of `p + [t]`,
    ends with `t`, grows by at most one frame, is a suffix of the old window
    followed by `t`, and for sorted input holds the recent timestamps.
   */
  lemma AppendWindow(p: seq<real>, t: real)
    ensures var w := Evict(Window(p) + [t], t);
      && w == Window(p + [t])
      && w != [] && w[|w| - 1] == t
      && |w| <= |Window(p)| + 1
      && w == (Window(p) + [t])[|Window(p)| + 1 - |w|..]
      && (NonDecreasing(p + [t]) ==> |w| == |Recent(p + [t], t)|)
  {
    var ts := p + [t];
    WindowStep(p, t);
    EvictDropsStalePrefix(Window(p) + [t], t);
    WindowSuffix(ts);
    assert ts[|ts| - 1] == t;
    if NonDecreasing(ts) {
      WindowIsRecent(ts);
    }
  }

  class LinkedFramesList {
    /** The chain from `head` to `tail`, oldest first. */
    var frames: seq<real>
    var count: int
    /** Every timestamp ever appended, oldest first. */
    ghost var appended: seq<real>

    ghost predicate Valid()
      reads this
    {
      count == |frames| && frames == Window(appended)
    }

    constructor ()
      ensures Valid() && appended == [] && frames == [] && count == 0
    {
      frames := [];
      count := 0;
      appended := [];
    }

    /**
      Links a node for `timestamp` at the tail, counts it, then evicts stale
      frames from the head.  The new frame is always kept (`t - t = 0`), so
      the window is never empty after an append.
     */
    method Append(timestamp: real)
      requires Valid()
      modifies this
      ensures Valid() && appended == old(appended) + [timestamp]
      ensures frames == Evict(old(frames) + [timestamp], timestamp)
      ensures frames != [] && frames[|frames| - 1] == timestamp
      ensures count == |frames| <= old(count) + 1
      ensures frames == (old(frames) + [timestamp])[old(count) + 1 - count..]
      ensures NonDecreasing(appended) ==> count == |Recent(appended, timestamp)|
    {
      AppendWindow(appended, timestamp);
      frames := frames + [timestamp];
      count := count + 1;
      appended := appended + [timestamp];
      RemoveFrameNodes(timestamp);
    }

    /** Advances `head` past every stale frame, decrementing `count` for each. */
    method RemoveFrameNodes(timestamp: real)
      requires count == |frames|
      modifies this`frames, this`count
      ensures frames == Evict(old(frames), timestamp)
      ensures count == |frames|
    {
      while frames != []
        invariant count == |frames|
        invariant Evict(frames, timestamp) == Evict(old(frames), timestamp)
        decreases |frames|
      {
        if !Stale(frames[0], timestamp) {
          break;
        }
        frames := frames[1..];
        count := count - 1;
      }
    }
  }
}
