/**
 * An abstract `setTimeout`/`clearTimeout`: pending one-shot timers, each with the
 * handle `setTimeout` returned, the time it is due and what it does when it fires.
 */
module Scheduler {

  /** The callbacks `playAnimation` schedules: a step to one index, or the end of the run. */
  datatype Action = StepTo(index: int) | Terminal
  datatype Timer = Timer(handle: nat, due: int, action: Action)
  /** A timer as `playAnimation` requests it: a delay and a callback. */
  datatype Scheduled = Scheduled(delay: int, action: Action)

  /** `setTimeout` runs a callback with a negative delay as soon as it can, as with delay 0. */
  function Clamp(delay: int): nat {
    if delay < 0 then 0 else delay
  }

  /** The pending timers `setTimeout` creates for the requests `s`, issued at `now` in order. */
  function Stamp(s: seq<Scheduled>, now: int, firstHandle: nat): seq<Timer> {
    seq(|s|, k requires 0 <= k < |s| => Timer(firstHandle + k, now + Clamp(s[k].delay), s[k].action))
  }

  /** The handles those `setTimeout` calls return. */
  function Handles(firstHandle: nat, count: nat): seq<nat> {
    seq(count, k requires 0 <= k < count => firstHandle + k)
  }

  /** One more `setTimeout` request stamps one more timer, with the next handle. */
  lemma StampSnoc(s: seq<Scheduled>, now: int, firstHandle: nat, k: nat)
    requires k < |s|
    ensures Stamp(s[..k + 1], now, firstHandle)
         == Stamp(s[..k], now, firstHandle) + [Timer(firstHandle + k, now + Clamp(s[k].delay), s[k].action)]
  {
  }

  lemma HandlesSnoc(firstHandle: nat, count: nat)
    ensures Handles(firstHandle, count + 1) == Handles(firstHandle, count) + [firstHandle + count]
  {
  }

  /** The pending timers left after `clearTimeout(h)` for every `h` in `hs`. */
  function Without(p: seq<Timer>, hs: seq<nat>): seq<Timer> {
    if p == [] then [] else (if p[0].handle in hs then [] else [p[0]]) + Without(p[1..], hs)
  }

  lemma {:induction false} WithoutMembers(p: seq<Timer>, hs: seq<nat>)
    ensures forall t :: t in Without(p, hs) <==> t in p && t.handle !in hs
    decreases |p|
  {
    if p != [] {
      WithoutMembers(p[1..], hs);
      assert p == [p[0]] + p[1..];
    }
  }

  lemma {:induction false} WithoutNothing(p: seq<Timer>)
    ensures Without(p, []) == p
    decreases |p|
  {
    if p != [] {
      WithoutNothing(p[1..]);
      assert p == [p[0]] + p[1..];
    }
  }

  /** Clearing one more handle after a batch is clearing the longer batch. */
  lemma {:induction false} WithoutAppend(p: seq<Timer>, hs: seq<nat>, h: nat)
    ensures Without(Without(p, hs), [h]) == Without(p, hs + [h])
    decreases |p|
  {
    if p != [] {
      WithoutAppend(p[1..], hs, h);
      var rest := Without(p[1..], hs);
      assert p[0].handle in hs + [h] <==> p[0].handle in hs || p[0].handle == h;
      if p[0].handle !in hs {
        assert Without(p, hs) == [p[0]] + rest;
        assert ([p[0]] + rest)[1..] == rest;
      } else {
        assert Without(p, hs) == rest;
      }
    }
  }

  /** Clearing every handle that was ever issued cancels every pending timer. */
  lemma {:induction false} CancelAllCovered(p: seq<Timer>, hs: seq<nat>)
    requires forall k :: 0 <= k < |p| ==> p[k].handle in hs
    ensures Without(p, hs) == []
    decreases |p|
  {
    if p != [] {
      assert forall k :: 0 <= k < |p[1..]| ==> p[1..][k] == p[k + 1];
      CancelAllCovered(p[1..], hs);
    }
  }

  /** The timer that fires next: the first pending one with the smallest due time. */
  function EarliestIndex(p: seq<Timer>): (j: nat)
    requires |p| > 0
    ensures j < |p|
  {
    EarliestAmong(p, |p|)
  }

  /** The first of `p[0], ..., p[k - 1]` with the smallest due time. */
  function EarliestAmong(p: seq<Timer>, k: nat): (j: nat)
    requires 0 < k <= |p|
    ensures j < k
    decreases k
  {
    if k == 1 then 0
    else
      var j := EarliestAmong(p, k - 1);
      if p[k - 1].due < p[j].due then k - 1 else j
  }

  lemma {:induction false} EarliestAmongIsFirstMinimum(p: seq<Timer>, k: nat)
    requires 0 < k <= |p|
    ensures forall i :: 0 <= i < k ==> p[EarliestAmong(p, k)].due <= p[i].due
    ensures forall i :: 0 <= i < EarliestAmong(p, k) ==> p[i].due > p[EarliestAmong(p, k)].due
    decreases k
  {
    if k > 1 {
      EarliestAmongIsFirstMinimum(p, k - 1);
    }
  }

  /** `EarliestIndex` is a smallest due time, and no timer before it is due as early. */
  lemma EarliestIndexIsFirstMinimum(p: seq<Timer>)
    requires |p| > 0
    ensures forall k :: 0 <= k < |p| ==> p[EarliestIndex(p)].due <= p[k].due
    ensures forall k :: 0 <= k < EarliestIndex(p) ==> p[k].due > p[EarliestIndex(p)].due
  {
    EarliestAmongIsFirstMinimum(p, |p|);
  }

  /** The event loop's choice of the next timer, scanning the pending list once. */
  method FindEarliest(p: seq<Timer>) returns (j: nat)
    requires |p| > 0
    ensures j == EarliestIndex(p)
  {
    j := 0;
    var k := 1;
    while k < |p|
      invariant 1 <= k <= |p|
      invariant j == EarliestAmong(p, k)
    {
      if p[k].due < p[j].due {
        j := k;
      }
      k := k + 1;
    }
  }

  ghost predicate NondecreasingDue(p: seq<Timer>) {
    forall k, k' :: 0 <= k < k' < |p| ==> p[k].due <= p[k'].due
  }

  lemma NondecreasingDrop(p: seq<Timer>, k: nat)
    requires k <= |p| && NondecreasingDue(p)
    ensures NondecreasingDue(p[k..])
  {
    var q := p[k..];
    forall a, b | 0 <= a < b < |q| ensures q[a].due <= q[b].due {
      assert q[a] == p[k + a] && q[b] == p[k + b];
    }
  }

  /** When due times never decrease along the list, the head fires first. */
  lemma EarliestOfNondecreasing(p: seq<Timer>)
    requires |p| > 0 && NondecreasingDue(p)
    ensures EarliestIndex(p) == 0
  {
    EarliestIndexIsFirstMinimum(p);
    assert p[0].due <= p[EarliestIndex(p)].due;
  }

  function StepCount(last: int, n: int): nat {
    if n - 1 - last > 0 then n - 1 - last else 0
  }

  /**
   * The requests of `playAnimation` from index `last` over `n` data points: one step
   * timer per index `last + 1 .. n - 1`, then the terminal timer.
   */
  function PlaySchedule(last: int, n: int, interval: int): seq<Scheduled> {
    seq(StepCount(last, n), k requires 0 <= k < StepCount(last, n) => Scheduled((k + 1) * interval, StepTo(last + 1 + k)))
      + [Scheduled((n - last) * interval, Terminal)]
  }

  /**
   * Exactly one step timer for each index `i` in `[last + 1, n - 1]`, at delay
   * `(i - last) * interval`, and one terminal timer, last, at `(n - last) * interval`.
   */
  lemma PlayScheduleSteps(last: int, n: int, interval: int)
    ensures |PlaySchedule(last, n, interval)| == StepCount(last, n) + 1
    ensures forall i :: last + 1 <= i <= n - 1 ==>
              PlaySchedule(last, n, interval)[i - last - 1] == Scheduled((i - last) * interval, StepTo(i))
    ensures forall k, i :: 0 <= k < |PlaySchedule(last, n, interval)| && PlaySchedule(last, n, interval)[k].action == StepTo(i) ==>
              last + 1 <= i <= n - 1 && k == i - last - 1
    ensures PlaySchedule(last, n, interval)[StepCount(last, n)] == Scheduled((n - last) * interval, Terminal)
    ensures forall k :: 0 <= k < StepCount(last, n) ==> PlaySchedule(last, n, interval)[k].action != Terminal
  {
  }

  /** Entry `k` of a play schedule: a step to `last + 1 + k` before position `StepCount`, the terminal one there. */
  lemma PlayScheduleAt(last: int, n: int, interval: int, k: nat)
    requires k <= StepCount(last, n)
    ensures |PlaySchedule(last, n, interval)| == StepCount(last, n) + 1
    ensures k < StepCount(last, n) ==> PlaySchedule(last, n, interval)[k] == Scheduled((k + 1) * interval, StepTo(last + 1 + k))
    ensures k == StepCount(last, n) ==> PlaySchedule(last, n, interval)[k] == Scheduled((n - last) * interval, Terminal)
  {
  }

  lemma MulStrictlyMonotone(a: int, b: int, c: int)
    requires a < b && c > 0
    ensures a * c < b * c
  {
  }

  /** With a positive interval the delays strictly increase in index order, the terminal one last. */
  lemma PlayScheduleIncreasing(last: int, n: int, interval: int)
    requires interval > 0
    ensures forall k, k' :: 0 <= k < k' < |PlaySchedule(last, n, interval)| ==>
              PlaySchedule(last, n, interval)[k].delay < PlaySchedule(last, n, interval)[k'].delay
  {
    var s := PlaySchedule(last, n, interval);
    var c := StepCount(last, n);
    forall k, k' | 0 <= k < k' < |s| ensures s[k].delay < s[k'].delay {
      if k' < c {
        MulStrictlyMonotone(k + 1, k' + 1, interval);
      } else {
        MulStrictlyMonotone(k + 1, n - last, interval);
      }
    }
  }

  /** Whatever the interval, the timers `playAnimation` creates are due in list order. */
  lemma PlayTimersInOrder(last: int, n: int, interval: int, now: int, firstHandle: nat)
    ensures NondecreasingDue(Stamp(PlaySchedule(last, n, interval), now, firstHandle))
  {
    var s := PlaySchedule(last, n, interval);
    var c := StepCount(last, n);
    var p := Stamp(s, now, firstHandle);
    forall k, k' | 0 <= k < k' < |p| ensures p[k].due <= p[k'].due {
      if interval > 0 {
        PlayScheduleIncreasing(last, n, interval);
      } else {
        // every delay is at most 0 here: k + 1 and n - last are positive whenever k' exists
        assert s[k].delay <= 0 by { MulNonPositive(k + 1, interval); }
        assert s[k'].delay <= 0 by {
          if k' < c { MulNonPositive(k' + 1, interval); } else { MulNonPositive(n - last, interval); }
        }
      }
    }
  }

  lemma MulNonPositive(a: int, b: int)
    requires a >= 0 && b <= 0
    ensures a * b <= 0
  {
  }

  /**
   * The timers created for a play schedule: one step timer for index `i` exactly when
   * `last + 1 <= i <= n - 1`, at position `i - last - 1` and due `now + Clamp((i - last) * interval)`;
   * the terminal timer last, due `now + Clamp((n - last) * interval)`.
   */
  lemma StampedPlayTimers(last: int, n: int, interval: int, now: int, firstHandle: nat, i: int)
    ensures var p := Stamp(PlaySchedule(last, n, interval), now, firstHandle);
            && |p| == StepCount(last, n) + 1
            && ((exists k :: 0 <= k < |p| && p[k].action == StepTo(i)) <==> last + 1 <= i <= n - 1)
            && (forall k :: 0 <= k < |p| && p[k].action == StepTo(i) ==>
                  k == i - last - 1 && p[k].due == now + Clamp((i - last) * interval))
            && p[|p| - 1].action == Terminal && p[|p| - 1].due == now + Clamp((n - last) * interval)
  {
    var s := PlaySchedule(last, n, interval);
    PlayScheduleSteps(last, n, interval);
    var p := Stamp(s, now, firstHandle);
    if last + 1 <= i <= n - 1 {
      assert p[i - last - 1].action == StepTo(i);
    }
  }

  /** With a positive interval the timers of a play schedule are due strictly one after another. */
  lemma StampedPlayTimersIncreasing(last: int, n: int, interval: int, now: int, firstHandle: nat)
    requires interval > 0
    ensures var p := Stamp(PlaySchedule(last, n, interval), now, firstHandle);
            forall k, k' :: 0 <= k < k' < |p| ==> p[k].due < p[k'].due
  {
    PlayScheduleIncreasing(last, n, interval);
    var s := PlaySchedule(last, n, interval);
    var p := Stamp(s, now, firstHandle);
    forall k, k' | 0 <= k < k' < |p| ensures p[k].due < p[k'].due {
      assert s[k].delay < s[k'].delay;
      assert s[k].delay > 0 by {
        if k < StepCount(last, n) { MulStrictlyMonotone(0, k + 1, interval); }
        else { MulStrictlyMonotone(0, n - last, interval); }
      }
    }
  }
}
