/**
 * The frame pacing timer of momo/timer.py.
 *
 * The timer keeps the instant of the last scheduled tick and a fixed period
 * `1/fps`. Every call after the first advances the schedule by exactly one
 * period, whatever the current time, so the schedule never drifts; the wait it
 * returns is how far the new scheduled tick lies in the future, and zero when
 * the caller is on time or late. The clock is a parameter (`now`) and time is
 * an exact real number; a sleep is returned as the duration that would be slept.
 */
module Timer {
  import opened Wrappers

  function Max(a: real, b: real): real { if a < b then b else a }

  /** The value `_calc_wait_sec` returns when called at `now` with `_last == last`. */
  function WaitSec(last: Option<real>, duration: real, now: real): (w: real)
    ensures w >= 0.0
    ensures last.None? ==> w == 0.0
    ensures last.Some? ==> w == Max(0.0, NextLast(last, duration, now) - now)
  {
    match last
    case None => 0.0
    case Some(l) =>
      var diff := now - l;
      if diff < duration then duration - diff else 0.0
  }

  /** The value `_last` holds after a call at `now`. */
  function NextLast(last: Option<real>, duration: real, now: real): real {
    match last
    case None => now
    case Some(l) => l + duration
  }

  /** `_last` after one call at each instant of `nows`, in order. */
  function LastAfter(last: Option<real>, duration: real, nows: seq<real>): Option<real>
    decreases |nows|
  {
    if nows == [] then last
    else LastAfter(Some(NextLast(last, duration, nows[0])), duration, nows[1..])
  }

  /** The waits returned by one call at each instant of `nows`, in order. */
  function Waits(last: Option<real>, duration: real, nows: seq<real>): seq<real>
    decreases |nows|
  {
    if nows == [] then []
    else [WaitSec(last, duration, nows[0])] + Waits(Some(NextLast(last, duration, nows[0])), duration, nows[1..])
  }

  /** No drift: n calls after an anchor leave the schedule exactly n periods past it. */
  lemma {:induction false} NoDrift(anchor: real, duration: real, nows: seq<real>)
    ensures LastAfter(Some(anchor), duration, nows) == Some(anchor + |nows| as real * duration)
    decreases |nows|
  {
    if nows != [] {
      NoDrift(anchor + duration, duration, nows[1..]);
      assert (anchor + duration) + |nows[1..]| as real * duration == anchor + |nows| as real * duration;
    }
  }

  lemma OnePeriodLater(anchor: real, duration: real, n: nat)
    ensures (anchor + duration) + n as real * duration == anchor + (n + 1) as real * duration
  {
  }

  /** A call at `now` on a schedule anchored at `anchor` reaches the next slot, or returns 0 when it has passed. */
  lemma FirstSlot(anchor: real, duration: real, now: real)
    ensures now + WaitSec(Some(anchor), duration, now) == Max(now, anchor + (0 + 1) as real * duration)
  {
  }

  /** What reaches slot `k` of a schedule anchored one period later reaches slot `k + 1` of this one. */
  lemma SlotOneLater(anchor: real, duration: real, k: nat, now: real, w: real)
    requires k >= 1
    requires now + w == Max(now, (anchor + duration) + ((k - 1) + 1) as real * duration)
    ensures now + w == Max(now, anchor + (k + 1) as real * duration)
  {
    OnePeriodLater(anchor, duration, k);
  }

  /** The first call on a fresh timer returns 0 and anchors the schedule at its own instant. */
  lemma {:induction false} FirstCallAnchors(duration: real, nows: seq<real>)
    requires nows != []
    ensures Waits(None, duration, nows)[0] == 0.0
    ensures LastAfter(None, duration, nows) == Some(nows[0] + (|nows| - 1) as real * duration)
  {
    assert LastAfter(None, duration, nows) == LastAfter(Some(nows[0]), duration, nows[1..]);
    NoDrift(nows[0], duration, nows[1..]);
    var afterRest := nows[0] + |nows[1..]| as real * duration;
    var expected := nows[0] + (|nows| - 1) as real * duration;
    assert afterRest == expected;
    assert Some(afterRest) == Some(expected);
  }

  /**
   * The k-th call after an anchor returns exactly what is left until slot
   * `anchor + (k+1)*duration`: a caller that sleeps the returned wait wakes at
   * that slot, or at once when it is already past it, and never earlier.
   */
  lemma {:induction false} WaitsReachSchedule(anchor: real, duration: real, nows: seq<real>)
    ensures |Waits(Some(anchor), duration, nows)| == |nows|
    ensures forall k :: 0 <= k < |nows| ==>
      nows[k] + Waits(Some(anchor), duration, nows)[k] == Max(nows[k], anchor + (k + 1) as real * duration)
    decreases |nows|
  {
    if nows != [] {
      var ws := Waits(Some(anchor), duration, nows);
      var rest := Waits(Some(anchor + duration), duration, nows[1..]);
      assert ws == [WaitSec(Some(anchor), duration, nows[0])] + rest;
      WaitsReachSchedule(anchor + duration, duration, nows[1..]);
      forall k | 0 <= k < |nows|
        ensures nows[k] + ws[k] == Max(nows[k], anchor + (k + 1) as real * duration)
      {
        if k == 0 {
          FirstSlot(anchor, duration, nows[0]);
        } else {
          assert ws[k] == rest[k - 1];
          assert nows[k] == nows[1..][k - 1];
          SlotOneLater(anchor, duration, k, nows[k], rest[k - 1]);
        }
      }
    }
  }

  /** Calls made on their slot or later (in particular spaced exactly one period apart) never wait. */
  lemma OnScheduleNeverWaits(anchor: real, duration: real, nows: seq<real>)
    requires forall k :: 0 <= k < |nows| ==> nows[k] >= anchor + (k + 1) as real * duration
    ensures |Waits(Some(anchor), duration, nows)| == |nows|
    ensures forall k :: 0 <= k < |nows| ==> Waits(Some(anchor), duration, nows)[k] == 0.0
  {
    WaitsReachSchedule(anchor, duration, nows);
  }

  class Timer {
    var last: Option<real>
    const duration: real
    /** The instant of the last re-anchoring and the number of calls since it. */
    ghost var anchor: real
    ghost var ticks: nat

    /** Once anchored, the schedule sits exactly `ticks` periods after the anchor. */
    ghost predicate Valid()
      reads this
    {
      duration > 0.0 &&
      (last.Some? ==> last.value == anchor + ticks as real * duration)
    }

    constructor (fps: int)
      requires fps > 0
      ensures Valid()
      ensures last == None && duration == 1.0 / fps as real
    {
      last := None;
      duration := 1.0 / fps as real;
    }

    method CalcWaitSec(now: real) returns (wait: real)
      requires Valid()
      modifies this
      ensures Valid()
      ensures wait == WaitSec(old(last), duration, now)
      ensures last == Some(NextLast(old(last), duration, now))
      ensures old(last).None? ==> anchor == now && ticks == 0
      ensures old(last).Some? ==> anchor == old(anchor) && ticks == old(ticks) + 1
    {
      if last.Some? {
        var diff := now - last.value;
        last := Some(last.value + duration);
        ticks := ticks + 1;
        if diff < duration {
          wait := duration - diff;
        } else {
          wait := 0.0;
        }
      } else {
        last := Some(now);
        anchor, ticks := now, 0;
        wait := 0.0;
      }
    }

    /** Re-anchors the schedule at `now`; a call at that same instant then waits a full period. */
    method ResetThrottle(now: real)
      requires Valid()
      modifies this
      ensures Valid()
      ensures last == Some(now) && anchor == now && ticks == 0
      ensures WaitSec(last, duration, now) == duration
    {
      last := Some(now);
      anchor, ticks := now, 0;
    }

    /** The thread-blocking wait: sleeps only for a strictly positive wait. */
    method Wait(now: real) returns (slept: Option<real>)
      requires Valid()
      modifies this
      ensures Valid()
      ensures last == Some(NextLast(old(last), duration, now))
      ensures old(last).None? ==> anchor == now && ticks == 0
      ensures old(last).Some? ==> anchor == old(anchor) && ticks == old(ticks) + 1
      ensures var w := WaitSec(old(last), duration, now);
              slept == if w > 0.0 then Some(w) else None
    {
      var toWait := CalcWaitSec(now);
      slept := if toWait > 0.0 then Some(toWait) else None;
    }

    /** The suspending wait: the same policy as `Wait`, for the cooperative scheduler. */
    method WaitAsync(now: real) returns (slept: Option<real>)
      requires Valid()
      modifies this
      ensures Valid()
      ensures last == Some(NextLast(old(last), duration, now))
      ensures old(last).None? ==> anchor == now && ticks == 0
      ensures old(last).Some? ==> anchor == old(anchor) && ticks == old(ticks) + 1
      ensures var w := WaitSec(old(last), duration, now);
              slept == if w > 0.0 then Some(w) else None
    {
      var toWait := CalcWaitSec(now);
      if toWait > 0.0 {
        slept := Some(toWait);
      } else {
        slept := None;
      }
    }
  }
}
