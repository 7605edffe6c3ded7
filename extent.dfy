/**
 * Lines 124-132 of display.py: the argmax loop over `op_to_start` and the
 * horizontal extent of the canvas's scroll region.
 */
module Extent {
  import opened Errors
  import opened Dicts

  /** `k_ss`, the width in canvas units of one time slot. */
  const SLOT_SIZE: int := 100

  /**
   * `(max_i, max_start)` after the loop body has run for the first `n` keys of
   * `start`, with `max_i` given as the position of its key: `max_start` starts
   * at -1 and moves only on a strictly greater value.
   */
  ghost function Peak(start: Dict<int>, n: nat): (r: (Option<nat>, int))
    requires start.Valid() && n <= |start.order|
    ensures r.0.Some? ==> r.0.value < n
  {
    if n == 0 then (None, -1)
    else
      var (p, m) := Peak(start, n - 1);
      var v := start.entries[start.order[n - 1]];
      if v > m then (Some(n - 1), v) else (p, m)
  }

  /** The key at a position found by `Peak`, if any. */
  function KeyAt(order: seq<string>, p: Option<nat>): Option<string>
    requires p.Some? ==> p.value < |order|
  {
    if p.None? then None else Some(order[p.value])
  }

  /** Lines 127-131: `max_start = -1`, then `max_start, max_i = op_to_start[i], i` on each strict rise. */
  method Argmax(start: Dict<int>) returns (maxI: Option<string>, maxStart: int)
    requires start.Valid()
    ensures maxStart == Peak(start, |start.order|).1
    ensures maxI == KeyAt(start.order, Peak(start, |start.order|).0)
  {
    maxStart := -1;
    maxI := None;
    ghost var p: Option<nat> := None;
    for n := 0 to |start.order|
      invariant (p, maxStart) == Peak(start, n)
      invariant maxI == KeyAt(start.order, p)
    {
      var i := start.order[n];
      if start.entries[i] > maxStart {
        maxStart := start.entries[i];
        maxI := Some(i);
        p := Some(n);
      }
    }
  }

  /**
   * What the loop computes: `max_start` is the largest start time, or -1 if
   * none exceeds -1; `max_i` is unbound exactly in that case, and otherwise it
   * is the first key in insertion order whose start time is `max_start`.
   */
  lemma {:induction false} PeakIsFirstMaximum(start: Dict<int>, n: nat)
    requires start.Valid() && n <= |start.order|
    ensures Peak(start, n).1 >= -1
    ensures forall i | 0 <= i < n :: start.entries[start.order[i]] <= Peak(start, n).1
    ensures Peak(start, n).0.None? <==> Peak(start, n).1 == -1
    ensures Peak(start, n).0.Some? ==>
      && start.entries[start.order[Peak(start, n).0.value]] == Peak(start, n).1
      && forall i | 0 <= i < Peak(start, n).0.value :: start.entries[start.order[i]] < Peak(start, n).1
  {
    if n > 0 {
      PeakIsFirstMaximum(start, n - 1);
    }
  }

  /** On a non-empty table of non-negative start times, `max_i` is bound to a key holding the maximum. */
  lemma ArgmaxOfNonNegative(start: Dict<int>)
    requires start.Valid() && |start.order| > 0
    requires forall k | k in start.entries :: start.entries[k] >= 0
    ensures Peak(start, |start.order|).0.Some?
    ensures var k := KeyAt(start.order, Peak(start, |start.order|).0).value;
      && k in start.entries
      && start.entries[k] == Peak(start, |start.order|).1
      && forall k' | k' in start.entries :: start.entries[k'] <= start.entries[k]
  {
    var n := |start.order|;
    PeakIsFirstMaximum(start, n);
    assert start.order[0] in start.entries;
    forall k' | k' in start.entries ensures start.entries[k'] <= Peak(start, n).1 {
      var i :| 0 <= i < n && start.order[i] == k';
    }
  }

  /**
   * Line 132: `(max_start + op_to_duration[max_i]) * k_ss + k_ss`, which fails
   * when `max_i` was never bound or has no duration.
   */
  ghost function ExtentOf(start: Dict<int>, duration: Dict<int>): Result<int>
    requires start.Valid()
  {
    var (p, m) := Peak(start, |start.order|);
    match KeyAt(start.order, p)
    case None => Err(NoMaximum)
    case Some(k) =>
      if k !in duration.entries then Err(DanglingReference("duration", k))
      else Ok((m + duration.entries[k]) * SLOT_SIZE + SLOT_SIZE)
  }

  method ScrollExtent(start: Dict<int>, duration: Dict<int>) returns (r: Result<int>)
    requires start.Valid()
    ensures r == ExtentOf(start, duration)
  {
    var maxI, maxStart := Argmax(start);
    if maxI.None? {
      return Err(NoMaximum);
    }
    if maxI.value !in duration.entries {
      return Err(DanglingReference("duration", maxI.value));
    }
    return Ok((maxStart + duration.entries[maxI.value]) * SLOT_SIZE + SLOT_SIZE);
  }

  /**
   * The extent is the right edge, `k_ss + sx + ex`, of the bar of the first
   * operation with the latest start; when that bar has a non-negative length
   * every operation's left edge lies within the extent.
   */
  lemma ExtentIsLatestBar(start: Dict<int>, duration: Dict<int>)
    requires start.Valid()
    requires ExtentOf(start, duration).Ok?
    ensures var k := KeyAt(start.order, Peak(start, |start.order|).0).value;
      && k in start.entries && k in duration.entries
      && ExtentOf(start, duration).value == SLOT_SIZE + start.entries[k] * SLOT_SIZE + duration.entries[k] * SLOT_SIZE
      && (duration.entries[k] >= 0 ==>
            forall k' | k' in start.entries :: SLOT_SIZE + start.entries[k'] * SLOT_SIZE <= ExtentOf(start, duration).value)
  {
    var n := |start.order|;
    PeakIsFirstMaximum(start, n);
    forall k' | k' in start.entries ensures start.entries[k'] <= Peak(start, n).1 {
      var i :| 0 <= i < n && start.order[i] == k';
    }
  }

  /** The scroll region fails with `NoMaximum` exactly when no start time exceeds -1. */
  lemma ExtentWithoutMaximum(start: Dict<int>, duration: Dict<int>)
    requires start.Valid()
    ensures ExtentOf(start, duration) == Err(NoMaximum) <==> forall k | k in start.entries :: start.entries[k] <= -1
  {
    var n := |start.order|;
    PeakIsFirstMaximum(start, n);
    assert forall i | 0 <= i < n :: start.order[i] in start.entries;
    if !forall k | k in start.entries :: start.entries[k] <= -1 {
      var k :| k in start.entries && start.entries[k] > -1;
      var i :| 0 <= i < n && start.order[i] == k;
    }
  }

  /** Three operations starting at slots 0, 2 and 5, each one slot long: the scroll region is 700 wide. */
  lemma ExtentExample()
    ensures var start := Empty<int>().Put("F$0", 0).Put("F$1", 2).Put("F$2", 5);
      && start.Valid()
      && ExtentOf(start, Empty<int>().Put("F$0", 1).Put("F$1", 1).Put("F$2", 1)) == Ok(700)
  {
    var e := Empty<int>();
    var s1 := e.Put("F$0", 0);
    var s2 := s1.Put("F$1", 2);
    var start := s2.Put("F$2", 5);
    PutValid(e, "F$0", 0);
    PutValid(s1, "F$1", 2);
    PutValid(s2, "F$2", 5);
    assert start.order == ["F$0", "F$1", "F$2"];
    assert Peak(start, 1) == (Some(0), 0);
    assert Peak(start, 2) == (Some(1), 2);
    assert Peak(start, 3) == (Some(2), 5);
  }

  /** Ties go to the first key in insertion order, because the comparison is strict. */
  lemma TieExample()
    ensures var start := Empty<int>().Put("F$0", 4).Put("F$1", 4);
      && start.Valid()
      && Peak(start, |start.order|) == (Some(0), 4)
      && KeyAt(start.order, Peak(start, |start.order|).0) == Some("F$0")
  {
    var e := Empty<int>();
    var s1 := e.Put("F$0", 4);
    var start := s1.Put("F$1", 4);
    PutValid(e, "F$0", 4);
    PutValid(s1, "F$1", 4);
    assert start.order == ["F$0", "F$1"];
    assert Peak(start, 1) == (Some(0), 4);
  }

  /**
   * An unload operation has no duration, so when one starts last the script
   * stops at line 132, even though an earlier bar ends later.
   */
  lemma UnloadLastExample()
    ensures var start := Empty<int>().Put("L$0", 0).Put("U$0", 3);
      && start.Valid()
      && ExtentOf(start, Empty<int>().Put("L$0", 5)) == Err(DanglingReference("duration", "U$0"))
  {
    var e := Empty<int>();
    var s1 := e.Put("L$0", 0);
    var start := s1.Put("U$0", 3);
    PutValid(e, "L$0", 0);
    PutValid(s1, "U$0", 3);
    assert start.order == ["L$0", "U$0"];
    assert Peak(start, 1) == (Some(0), 0);
    assert Peak(start, 2) == (Some(1), 3);
  }
}
