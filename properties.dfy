/** Properties of the playback state machine, over all states and inputs. */
module PlaybackProperties {
  import opened Settings
  import opened Filter
  import opened Scheduler
  import opened Playback

  lemma InitialIsSettled()
    ensures Settled(Initial())
    ensures Initial().status == Pause && Initial().lastSelected == -1
    ensures Initial().timers == [] && Initial().pending == [] && Initial().view.None?
    ensures Initial().buttons == Buttons(play := true, pause := false, previous := false, next := false)
  {
  }

  // ---------------------------------------------------------------- play

  lemma PlayIsNoOpWhilePlaying(w: Widget)
    requires w.status == Play
    ensures PlayAnimation(w) == After(w, Done)
  {
  }

  /**
   * From any status but `Play`, `playAnimation` keeps the timers already pending and
   * appends the timers of the play schedule from `L`, the index after the wrap of
   * `N-1` to -1 (see `Scheduler.StampedPlayTimers` for their indices and due times);
   * it sets the status to `Play` and the index to `L`, and applies the filter for `L`.
   */
  lemma PlayAppendsSchedule(w: Widget)
    requires w.view.Some? && w.status != Play
    ensures var n := |w.view.value.dataPoints|;
            var last := PlayBase(w.lastSelected, n);
            var interval := IntervalMs(w.view.value.settings.transition.timeInterval);
            var r := PlayAnimation(w);
            && r.outcome == Done && r.w.status == Play && r.w.lastSelected == last
            && (w.lastSelected == n - 1 ==> last == -1)
            && r.w.pending == w.pending + Stamp(PlaySchedule(last, n, interval), w.now, w.nextHandle)
            && r.w.log == w.log + [ApplyJsonFilter(FilterFor(w.view.value.source, last))]
  {
  }

  // ---------------------------------------------------------------- an uninterrupted run

  /** The selections a run makes: `Select(from)`, `Select(from + 1)`, ... */
  function StepsLog(from: int, count: nat): seq<HostCall> {
    seq(count, j requires 0 <= j < count => Select(from + j))
  }

  /** After `k` step timers of a run that started in `start` from index `last`. */
  ghost predicate Midway(x: Widget, start: Widget, last: int, k: nat) {
    && x.view == start.view
    && x.status == Play
    && k <= |start.pending|
    && x.pending == start.pending[k..]
    && x.timers == start.timers
    && x.nextHandle == start.nextHandle
    && x.lastSelected == last + k
    && x.log == start.log + StepsLog(last + 1, k)
  }

  /** The pending timers of `start` are exactly the timers of a play schedule from `last`, stamped from `firstHandle`. */
  ghost predicate RunScheduled(start: Widget, last: int, firstHandle: nat) {
    && start.view.Some?
    && -1 <= last
    && start.pending == Stamp(PlaySchedule(last, |start.view.value.dataPoints|, IntervalMs(start.view.value.settings.transition.timeInterval)),
                              start.now, firstHandle)
  }

  /** When due times never decrease, the head of the pending list is the timer that fires. */
  lemma FireHead(x: Widget)
    requires x.pending != [] && NondecreasingDue(x.pending)
    ensures Fire(x) == RunCallback(x.(pending := x.pending[1..], now := x.pending[0].due), x.pending[0].action)
  {
    EarliestOfNondecreasing(x.pending);
    assert x.pending[..0] + x.pending[1..] == x.pending[1..];
  }

  /**
   * When due times never decrease and the head is a step timer for an index in range,
   * firing pops the head, makes its index current and logs its selection.
   */
  lemma FireStepHead(x: Widget, i: int)
    requires x.pending != [] && NondecreasingDue(x.pending) && x.pending[0].action == StepTo(i)
    requires x.view.Some? && 0 <= i < |x.view.value.dataPoints|
    ensures var r := Fire(x);
            && r.outcome == Done && r.w.view == x.view && r.w.status == x.status && r.w.pending == x.pending[1..]
            && r.w.timers == x.timers && r.w.nextHandle == x.nextHandle
            && r.w.lastSelected == i && r.w.log == x.log + [Select(i)]
  {
    FireHead(x);
  }

  lemma StepsLogSnoc(from: int, k: nat)
    ensures StepsLog(from, k + 1) == StepsLog(from, k) + [Select(from + k)]
  {
  }

  /** Timer `k` of the run and the ones after it, due in list order, the first a step to `last + 1 + k`. */
  lemma RunTimerAt(start: Widget, last: int, firstHandle: nat, k: nat)
    requires RunScheduled(start, last, firstHandle)
    requires k <= StepCount(last, |start.view.value.dataPoints|)
    ensures |start.pending| == StepCount(last, |start.view.value.dataPoints|) + 1
    ensures NondecreasingDue(start.pending[k..])
    ensures k < StepCount(last, |start.view.value.dataPoints|) ==> start.pending[k].action == StepTo(last + 1 + k)
    ensures k == StepCount(last, |start.view.value.dataPoints|) ==> start.pending[k].action == Terminal
  {
    var n := |start.view.value.dataPoints|;
    var interval := IntervalMs(start.view.value.settings.transition.timeInterval);
    PlayScheduleAt(last, n, interval, k);
    PlayTimersInOrder(last, n, interval, start.now, firstHandle);
    NondecreasingDrop(start.pending, k);
  }

  lemma FireOneStep(x: Widget, start: Widget, last: int, firstHandle: nat, k: nat)
    requires RunScheduled(start, last, firstHandle)
    requires k < StepCount(last, |start.view.value.dataPoints|)
    requires Midway(x, start, last, k)
    ensures Midway(Fire(x).w, start, last, k + 1)
  {
    RunTimerAt(start, last, firstHandle, k);
    assert x.pending[0] == start.pending[k];
    FireStepHead(x, last + 1 + k);
    assert x.pending[1..] == start.pending[k + 1..];
    StepsLogSnoc(last + 1, k);
  }

  /** The first `m` timers of a run are its first `m` step timers. */
  lemma {:induction false} FireSteps(start: Widget, last: int, firstHandle: nat, m: nat)
    requires RunScheduled(start, last, firstHandle)
    requires m <= StepCount(last, |start.view.value.dataPoints|)
    requires Midway(start, start, last, 0)
    ensures Midway(FireTimes(start, m), start, last, m)
    decreases m
  {
    if m > 0 {
      FireSteps(start, last, firstHandle, m - 1);
      FireOneStep(FireTimes(start, m - 1), start, last, firstHandle, m - 1);
    }
  }

  /** The state `playAnimation` leaves when nothing was pending is a run scheduled from `L`. */
  lemma PlayStartsRun(w: Widget)
    requires w.view.Some? && w.status != Play && w.pending == []
    requires -1 <= w.lastSelected
    ensures RunScheduled(PlayAnimation(w).w, PlayBase(w.lastSelected, |w.view.value.dataPoints|), w.nextHandle)
    ensures Midway(PlayAnimation(w).w, PlayAnimation(w).w, PlayBase(w.lastSelected, |w.view.value.dataPoints|), 0)
  {
    var start := PlayAnimation(w).w;
    assert start.pending[0..] == start.pending;
    assert StepsLog(PlayBase(w.lastSelected, |w.view.value.dataPoints|) + 1, 0) == [];
  }

  /** Without `loop`, the last pending timer of a run, a terminal one, stops the widget at `N-1`. */
  lemma FireTerminalStops(x: Widget)
    requires |x.pending| == 1 && x.pending[0].action == Terminal
    requires x.view.Some? && x.status == Play && |x.view.value.dataPoints| > 0
    requires !Truthy(x.view.value.settings.transition.loop)
    ensures var n := |x.view.value.dataPoints|;
            var r := Fire(x).w;
            && r.status == Pause && r.lastSelected == n - 1 && r.endSelected == n - 1 && r.pending == []
            && r.log == x.log + [ClearSelection, Select(n - 1)]
  {
    assert EarliestIndex(x.pending) == 0;
    assert x.pending[..0] + x.pending[1..] == [];
  }

  /**
   * With `loop`, the terminal timer sets the status to `Stop` and the index to -1 and
   * plays again from there.
   */
  lemma FireTerminalLoops(x: Widget)
    requires |x.pending| == 1 && x.pending[0].action == Terminal
    requires x.view.Some? && Truthy(x.view.value.settings.transition.loop)
    ensures Fire(x).w == PlayAnimation(x.(pending := [], now := x.pending[0].due, status := Stop, lastSelected := -1)).w
  {
    assert EarliestIndex(x.pending) == 0;
    assert x.pending[..0] + x.pending[1..] == [];
  }

  /** The state just before the terminal timer of a run from `playAnimation` fires. */
  lemma RunReachesTerminal(w: Widget) returns (c: nat)
    requires w.view.Some? && w.status != Play && w.pending == []
    requires -1 <= w.lastSelected
    ensures var n := |w.view.value.dataPoints|;
            var last := PlayBase(w.lastSelected, n);
            var start := PlayAnimation(w).w;
            var x := FireTimes(start, c);
            && c == StepCount(last, n)
            && Midway(x, start, last, c)
            && |x.pending| == 1 && x.pending[0].action == Terminal
            && FireTimes(start, c + 1) == Fire(x).w
  {
    var n := |w.view.value.dataPoints|;
    var last := PlayBase(w.lastSelected, n);
    c := StepCount(last, n);
    var start := PlayAnimation(w).w;
    PlayStartsRun(w);
    FireSteps(start, last, w.nextHandle, c);
    RunTimerAt(start, last, w.nextHandle, c);
  }

  /**
   * An uninterrupted run without `loop`: from status other than `Play`, nothing
   * pending and an index in `[-1, N-1]`, the `N - L` timers of `playAnimation` select
   * `L+1, ..., N-1` in increasing order, and the terminal timer's `stopAnimation`
   * leaves the widget paused at `N-1` with nothing pending.
   */
  lemma PlayRunsToEnd(w: Widget)
    requires w.view.Some? && w.status != Play && w.pending == []
    requires !Truthy(w.view.value.settings.transition.loop)
    requires |w.view.value.dataPoints| > 0
    requires -1 <= w.lastSelected <= |w.view.value.dataPoints| - 1
    ensures var n := |w.view.value.dataPoints|;
            var last := PlayBase(w.lastSelected, n);
            var r := FireTimes(PlayAnimation(w).w, n - last);
            && r.status == Pause && r.lastSelected == n - 1 && r.endSelected == n - 1 && r.pending == []
            && r.log == w.log + [ApplyJsonFilter(FilterFor(w.view.value.source, last))]
                        + StepsLog(last + 1, n - 1 - last) + [ClearSelection, Select(n - 1)]
  {
    var c := RunReachesTerminal(w);
    FireTerminalStops(FireTimes(PlayAnimation(w).w, c));
  }

  /**
   * With `loop` set, the terminal timer of such a run sets the status to `Stop` and
   * the index to -1 and plays again: the widget is back at `Play` from index -1,
   * with a fresh schedule whose first timer steps to index 0.
   */
  lemma LoopRestartsFromZero(w: Widget)
    requires w.view.Some? && w.status != Play && w.pending == []
    requires Truthy(w.view.value.settings.transition.loop)
    requires |w.view.value.dataPoints| > 0
    requires -1 <= w.lastSelected <= |w.view.value.dataPoints| - 1
    ensures var n := |w.view.value.dataPoints|;
            var last := PlayBase(w.lastSelected, n);
            var start := PlayAnimation(w).w;
            var r := FireTimes(start, n - last);
            var interval := IntervalMs(w.view.value.settings.transition.timeInterval);
            && r.status == Play && r.lastSelected == -1
            && r.pending == Stamp(PlaySchedule(-1, n, interval), r.now, start.nextHandle)
            && r.pending[0].action == StepTo(0)
  {
    var c := RunReachesTerminal(w);
    FireTerminalLoops(FireTimes(PlayAnimation(w).w, c));
    PlayScheduleSteps(-1, |w.view.value.dataPoints|, IntervalMs(w.view.value.settings.transition.timeInterval));
  }
}
