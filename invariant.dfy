/**
 * The invariant every handler keeps: each pending timer carries a handle recorded in
 * `timers` (so the cancel loop reaches it) and is not due before the clock, and
 * `Stop` is never the status between events.
 */
module SettledInvariant {
  import opened Wrappers
  import opened Settings
  import opened DataViews
  import opened Scheduler
  import opened Playback
  import opened ControlProperties

  /** `playAnimation` records the handle of every timer it creates, each due no earlier than now. */
  lemma PlayKeepsScheduler(w: Widget)
    requires SchedulerOk(w)
    ensures var r := PlayAnimation(w).w;
            && SchedulerOk(r) && r.now == w.now
            && (w.view.Some? ==> r.status == Play)
            && (r.status == Play || r.status == w.status)
  {
    if w.status != Play && w.view.Some? {
      var v := w.view.value;
      var n := |v.dataPoints|;
      var last := PlayBase(w.lastSelected, n);
      var s := PlaySchedule(last, n, IntervalMs(v.settings.transition.timeInterval));
      var created := Stamp(s, w.now, w.nextHandle);
      var hs := Handles(w.nextHandle, |s|);
      var r := PlayAnimation(w).w;
      assert r.pending == w.pending + created && r.timers == w.timers + hs;
      forall k | 0 <= k < |r.pending| ensures r.pending[k].handle in r.timers && r.pending[k].due >= r.now {
        if k < |w.pending| {
          assert r.pending[k] == w.pending[k];
        } else {
          var i := k - |w.pending|;
          assert r.pending[k] == created[i];
          assert hs[i] == w.nextHandle + i;
          assert r.timers[|w.timers| + i] == hs[i];
        }
      }
    }
  }

  /** A handler that leaves the timers as they are and may only pause keeps the invariant. */
  lemma StopKeepsSettled(w: Widget)
    requires Settled(w)
    ensures Settled(StopAnimation(w).w) && StopAnimation(w).w.now == w.now
  {
    StopOutcome(w);
  }

  lemma PauseKeepsSettled(w: Widget)
    requires Settled(w)
    ensures Settled(PauseAnimation(w).w) && PauseAnimation(w).w.now == w.now
  {
    CancelClearsAll(w);
  }

  lemma StepKeepsSettled(w: Widget, step: int)
    requires Settled(w)
    ensures Settled(Step(w, step).w) && Step(w, step).w.now == w.now
  {
  }

  lemma UpdateSelectKeepsSettled(w: Widget, value: int)
    requires Settled(w)
    ensures Settled(UpdateSelect(w, value).w) && UpdateSelect(w, value).w.now == w.now
  {
  }

  /** The state `update` reaches before it may autostart: the timers and the status are as they were. */
  lemma ReselectKeepsTimers(w: Widget, jsonFilters: seq<Option<HostFilter>>)
    requires w.view.Some?
    ensures var r := Reselect(w, jsonFilters).w;
            && r.pending == w.pending && r.timers == w.timers && r.status == w.status && r.now == w.now
            && r.view == w.view
  {
  }

  lemma RefreshKeepsSettled(w: Widget)
    requires w.view.Some? && Settled(w)
    ensures var r := RefreshCaption(w).w; Settled(r) && r.now == w.now
  {
  }

  /** The rest of `update` after a resync that completed: autostart, colours, caption. */
  lemma AfterResyncKeepsSettled(r: Widget, settings: VisualSettings)
    requires r.view.Some? && Settled(r)
    ensures var w5 := if Truthy(settings.transition.autoStart) then PlayAnimation(r).w else r;
            var u := if !ColoursReadable(settings) then After(w5, Threw) else RefreshCaption(w5);
            Settled(u.w) && u.w.now == r.now
  {
    var w5 := if Truthy(settings.transition.autoStart) then PlayAnimation(r).w else r;
    if Truthy(settings.transition.autoStart) {
      PlayKeepsScheduler(r);
    }
    assert w5.view.Some? && Settled(w5) && w5.now == r.now;
    RefreshKeepsSettled(w5);
  }

  lemma UpdateKeepsSettled(w: Widget, options: UpdateOptions, selectedText: Option<string>)
    requires Settled(w)
    ensures Settled(Update(w, options, selectedText).w) && Update(w, options, selectedText).w.now == w.now
  {
    if IsDataReady(options) == Ready {
      var vm := ViewModelOf(options);
      var w1 := w.(view := Some(View(vm.settings, vm.dataPoints, FirstCategory(options).source.value)), endSelected := |vm.dataPoints| - 1);
      if !CaptionMatches(vm.dataPoints, w.lastSelected, selectedText) {
        var w1a := w1.(lastSelected := |vm.dataPoints| - 1);
        if options.jsonFilters.Some? {
          ReselectKeepsTimers(w1a, options.jsonFilters.value);
          var r := Reselect(w1a, options.jsonFilters.value);
          if r.outcome == Done {
            AfterResyncKeepsSettled(r.w, vm.settings);
          }
        }
      }
    }
  }

  /**
   * Taking the earliest timer off the list and moving the clock to its due time keeps
   * the invariant: no other timer is due earlier, and the clock does not go back.
   */
  lemma PopKeepsScheduler(w: Widget)
    requires SchedulerOk(w) && w.pending != []
    ensures var j := EarliestIndex(w.pending);
            var y := w.(pending := w.pending[..j] + w.pending[j + 1..], now := w.pending[j].due);
            SchedulerOk(y) && y.now >= w.now
  {
    var p := w.pending;
    var j := EarliestIndex(p);
    EarliestIndexIsFirstMinimum(p);
    var q := p[..j] + p[j + 1..];
    forall k | 0 <= k < |q| ensures q[k].handle in w.timers && q[k].due >= p[j].due {
      if k < j {
        assert q[k] == p[k];
      } else {
        assert q[k] == p[k + 1];
      }
    }
  }

  /** The callback of a timer keeps the invariant, in both its step and its terminal form. */
  lemma CallbackKeepsSettled(y: Widget, action: Action)
    requires Settled(y)
    ensures Settled(RunCallback(y, action).w) && RunCallback(y, action).w.now == y.now
  {
    match action
    case StepTo(i) =>
    case Terminal =>
      if y.view.Some? {
        if Truthy(y.view.value.settings.transition.loop) {
          PlayKeepsScheduler(y.(status := Stop, lastSelected := -1));
        } else {
          StopKeepsSettled(y);
        }
      }
  }

  lemma FireKeepsSettled(w: Widget)
    requires Settled(w)
    ensures Settled(Fire(w).w) && Fire(w).w.now >= w.now
  {
    if w.pending != [] {
      var j := EarliestIndex(w.pending);
      var y := w.(pending := w.pending[..j] + w.pending[j + 1..], now := w.pending[j].due);
      PopKeepsScheduler(w);
      CallbackKeepsSettled(y, w.pending[j].action);
    }
  }

  /** Every event keeps the invariant, and the clock never goes back. */
  lemma DispatchKeepsSettled(w: Widget, e: Event)
    requires Settled(w)
    ensures Settled(Dispatch(w, e).w) && Dispatch(w, e).w.now >= w.now
  {
    match e
    case PlayClicked => PlayKeepsScheduler(w);
    case PauseClicked => PauseKeepsSettled(w);
    case PreviousClicked => StepKeepsSettled(w, -1);
    case NextClicked => StepKeepsSettled(w, 1);
    case CaptionChanged(value) => UpdateSelectKeepsSettled(w, value);
    case HostUpdate(options, selectedText) => UpdateKeepsSettled(w, options, selectedText);
    case TimerFired => FireKeepsSettled(w);
  }

  lemma {:induction false} RunKeepsSettled(w: Widget, events: seq<Event>)
    requires Settled(w)
    ensures Settled(Run(w, events)) && Run(w, events).now >= w.now
    decreases |events|
  {
    if events != [] {
      DispatchKeepsSettled(w, events[0]);
      RunKeepsSettled(Dispatch(w, events[0]).w, events[1..]);
    }
  }

  /**
   * Whatever happens after construction, `Stop` is never the status between events
   * (it is set only inside the terminal callback, before `playAnimation` replaces it),
   * and every pending timer can still be cancelled.
   */
  lemma StopIsTransient(events: seq<Event>)
    ensures Run(Initial(), events).status != Stop
    ensures forall k :: 0 <= k < |Run(Initial(), events).pending| ==>
              Run(Initial(), events).pending[k].handle in Run(Initial(), events).timers
  {
    RunKeepsSettled(Initial(), events);
  }
}
