/**
 * The `Visual` class itself: its fields are updated in place by the handlers, the
 * timer callbacks and `update`, exactly as the value model in `Playback` describes.
 * A TypeError that escapes a handler is the outcome `Threw`; whatever was assigned
 * before it stays assigned.
 */
module TimelineVisual {
  import opened Wrappers
  import opened Settings
  import opened DataViews
  import opened Caption
  import opened Filter
  import opened Scheduler
  import opened Playback
  import opened SettledInvariant

  class Visual {
    /** The options, view model, settings and data points of the last accepted update. */
    var view: Option<View>
    var status: Status
    var lastSelected: int
    var endSelected: int
    /** Every handle `setTimeout` returned; the array is only ever appended to. */
    var timers: seq<nat>
    /** The event loop's timers that have neither fired nor been cleared, and its clock. */
    var pending: seq<Timer>
    var now: int
    var nextHandle: nat
    var buttons: Buttons
    /** The options of the `#label` selector. */
    var caption: seq<CaptionOption>
    /** The calls made into the host so far. */
    var log: seq<HostCall>

    ghost function State(): Widget
      reads this
    {
      Widget(view, status, lastSelected, endSelected, timers, pending, now, nextHandle, buttons, caption, log)
    }

    constructor ()
      ensures State() == Playback.Initial()
    {
      view := None;
      status := Pause;
      timers := [];
      pending := [];
      now := 0;
      nextHandle := 1;
      lastSelected := -1;
      endSelected := -1;
      buttons := Buttons(true, true, true, true);
      caption := [];
      log := [];
      new;
      ResetAnimation(false);
    }

    method ResetAnimation(autoStart: bool)
      modifies this
      ensures State() == Playback.ResetAnimation(old(State()), autoStart)
    {
      lastSelected := -1;
      if autoStart {
        buttons := Buttons(play := false, pause := true, previous := false, next := false);
      } else {
        buttons := Buttons(play := true, pause := false, previous := false, next := false);
      }
    }

    // ------------------------------------------------------------ the event loop's timers

    /** `setTimeout`: a new pending timer with the next handle, which it returns. */
    method SetTimeout(delay: int, action: Action) returns (handle: nat)
      modifies this
      ensures handle == old(nextHandle)
      ensures State() == old(State()).(pending := old(pending) + [Timer(old(nextHandle), old(now) + Clamp(delay), action)],
                                       nextHandle := old(nextHandle) + 1)
    {
      handle := nextHandle;
      pending := pending + [Timer(handle, now + Clamp(delay), action)];
      nextHandle := nextHandle + 1;
    }

    /** `clearTimeout`: the timer with that handle, if still pending, never fires. */
    method ClearTimeout(handle: nat)
      modifies this
      ensures State() == old(State()).(pending := Without(old(pending), [handle]))
    {
      pending := Without(pending, [handle]);
    }

    /** The `for (let i of this.timers) clearTimeout(i)` loop of stop and pause. */
    method CancelTimers()
      modifies this
      ensures State() == Playback.CancelTimers(old(State()))
    {
      ghost var p0 := pending;
      WithoutNothing(p0);
      var k := 0;
      while k < |timers|
        invariant 0 <= k <= |timers|
        invariant State() == old(State()).(pending := Without(p0, timers[..k]))
      {
        WithoutAppend(p0, timers[..k], timers[k]);
        assert timers[..k + 1] == timers[..k] + [timers[k]];
        ClearTimeout(timers[k]);
        k := k + 1;
      }
      assert timers[..|timers|] == timers;
    }

    // ------------------------------------------------------------ helpers of the handlers

    method ControlButton() returns (outcome: Outcome)
      modifies this
      ensures After(State(), outcome) == Playback.ControlButton(old(State()))
    {
      if view.None? {
        return Threw;
      }
      var n := |view.value.dataPoints|;
      buttons := buttons.(previous := !(lastSelected <= 0), next := !(lastSelected >= n - 1));
      outcome := Done;
    }

    method ApplyFilter()
      requires view.Some?
      modifies this
      ensures State() == Playback.ApplyFilter(old(State()))
    {
      var source := view.value.source;
      var target := FilterTarget(Substr(source.queryName, 0, IndexOf(source.queryName, '.')), source.displayName);
      log := log + [ApplyJsonFilter(BasicFilter(target, "In", [lastSelected]))];
    }

    method UpdateCaption(text: string)
      requires view.Some?
      modifies this
      ensures State() == Playback.UpdateCaption(old(State()), text)
    {
      if Truthy(view.value.settings.caption.show) {
        caption := RenderOptions(Categories(view.value), text);
      }
    }

    // ------------------------------------------------------------ the buttons

    /** `this.timers.push(setTimeout(...))`: a new pending timer whose handle is recorded. */
    method PushTimer(delay: int, action: Action)
      modifies this
      ensures pending == old(pending) + [Timer(old(nextHandle), old(now) + Clamp(delay), action)]
      ensures timers == old(timers) + [old(nextHandle)] && nextHandle == old(nextHandle) + 1
      ensures view == old(view) && status == old(status) && lastSelected == old(lastSelected)
      ensures endSelected == old(endSelected) && now == old(now) && buttons == old(buttons)
      ensures caption == old(caption) && log == old(log)
    {
      var handle := SetTimeout(delay, action);
      timers := timers + [handle];
    }

    /**
     * The `setTimeout` calls of `playAnimation`: one step timer for each index after
     * `lastSelected` up to `n - 1`, then the terminal timer, each handle pushed on `timers`.
     */
    method ScheduleRun(n: int, interval: int)
      modifies this
      ensures var s := PlaySchedule(old(lastSelected), n, interval);
              State() == old(State()).(pending := old(pending) + Stamp(s, old(now), old(nextHandle)),
                                       timers := old(timers) + Handles(old(nextHandle), |s|),
                                       nextHandle := old(nextHandle) + |s|)
    {
      ghost var s := PlaySchedule(lastSelected, n, interval);
      ghost var c := StepCount(lastSelected, n);
      ghost var p0, t0, h0 := pending, timers, nextHandle;
      var i := lastSelected + 1;
      while i < n
        invariant lastSelected + 1 <= i <= lastSelected + 1 + c
        invariant pending == p0 + Stamp(s[..i - lastSelected - 1], now, h0)
        invariant timers == t0 + Handles(h0, i - lastSelected - 1)
        invariant nextHandle == h0 + (i - lastSelected - 1)
        invariant view == old(view) && status == old(status) && lastSelected == old(lastSelected)
        invariant endSelected == old(endSelected) && now == old(now) && buttons == old(buttons)
        invariant caption == old(caption) && log == old(log)
      {
        ghost var k := i - lastSelected - 1;
        PlayScheduleAt(lastSelected, n, interval, k);
        StampSnoc(s, now, h0, k);
        HandlesSnoc(h0, k);
        PushTimer((i - lastSelected) * interval, StepTo(i));
        i := i + 1;
      }
      PlayScheduleAt(lastSelected, n, interval, c);
      StampSnoc(s, now, h0, c);
      HandlesSnoc(h0, c);
      PushTimer((n - lastSelected) * interval, Terminal);
      assert s[..c + 1] == s;
    }

    method PlayAnimation() returns (outcome: Outcome)
      modifies this
      ensures After(State(), outcome) == Playback.PlayAnimation(old(State()))
    {
      if status == Play {
        return Done;
      }
      buttons := Buttons(play := false, pause := true, previous := false, next := false);
      if view.None? {
        return Threw;
      }
      var n := |view.value.dataPoints|;
      var interval := IntervalMs(view.value.settings.transition.timeInterval);
      if lastSelected == n - 1 {
        lastSelected := -1;
      }
      ScheduleRun(n, interval);
      status := Play;
      ApplyFilter();
      outcome := Done;
    }

    method StopAnimation() returns (outcome: Outcome)
      modifies this
      ensures After(State(), outcome) == Playback.StopAnimation(old(State()))
    {
      if status == Stop {
        return Done;
      }
      buttons := Buttons(play := true, pause := false, previous := false, next := false);
      CancelTimers();
      if view.None? {
        return Threw;
      }
      outcome := StopAtEnd();
    }

    method StopAtEnd() returns (outcome: Outcome)
      requires view.Some?
      modifies this
      ensures After(State(), outcome) == Playback.StopAtEnd(old(State()))
    {
      var n := |view.value.dataPoints|;
      endSelected := n - 1;
      if n == 0 {
        return Threw;
      }
      UpdateCaption(view.value.dataPoints[endSelected].category);
      lastSelected := endSelected;
      log := log + [ClearSelection];
      log := log + [Select(endSelected)];
      outcome := ControlButton();
      status := Pause;
      outcome := Done;
    }

    method PauseAnimation() returns (outcome: Outcome)
      modifies this
      ensures After(State(), outcome) == Playback.PauseAnimation(old(State()))
    {
      if status == Pause || lastSelected == -1 {
        return Done;
      }
      buttons := buttons.(pause := false, play := true);
      CancelTimers();
      outcome := ControlButton();
      if outcome == Threw {
        return;
      }
      status := Pause;
    }

    method Step(step: int) returns (outcome: Outcome)
      modifies this
      ensures After(State(), outcome) == Playback.Step(old(State()), step)
    {
      if status == Play || status == Stop {
        return Done;
      }
      if lastSelected + step < 0 {
        return Done;
      }
      if view.None? {
        return Threw;
      }
      var n := |view.value.dataPoints|;
      if lastSelected + step > n - 1 {
        return Done;
      }
      buttons := buttons.(previous := lastSelected + step != 0, next := lastSelected + step != n - 1);
      lastSelected := lastSelected + step;
      log := log + [Select(lastSelected)];
      UpdateCaption(view.value.dataPoints[lastSelected].category);
      status := Pause;
      outcome := Done;
    }

    /** The `change` handler of the caption selector, given the chosen option's value after `+`. */
    method UpdateSelect(value: int) returns (outcome: Outcome)
      modifies this
      ensures After(State(), outcome) == Playback.UpdateSelect(old(State()), value)
    {
      lastSelected := value;
      if view.None? || !(0 <= value < |view.value.dataPoints|) {
        return Threw;
      }
      log := log + [Select(value)];
      status := Pause;
      outcome := ControlButton();
      ApplyFilter();
      outcome := Done;
    }

    // ------------------------------------------------------------ the host's update

    /**
     * `update`: `selectedText` is the text of the caption's selected option, `None`
     * when reading it throws.
     */
    method Update(options: UpdateOptions, selectedText: Option<string>) returns (outcome: Outcome)
      modifies this
      ensures After(State(), outcome) == Playback.Update(old(State()), options, selectedText)
    {
      var ready := IsDataReady(options);
      if ready == NotReady {
        return Done;
      } else if ready == ThrowsTypeError {
        return Threw;
      }
      var vm := VisualTransform(options);
      var n := |vm.dataPoints|;
      view := Some(View(vm.settings, vm.dataPoints, FirstCategory(options).source.value));
      endSelected := n - 1;
      if CaptionMatches(vm.dataPoints, lastSelected, selectedText) {
        return Done;
      }
      lastSelected := endSelected;
      if options.jsonFilters.None? {
        return Threw;
      }
      outcome := Reselect(options.jsonFilters.value);
      if outcome == Threw {
        return;
      }
      if Truthy(vm.settings.transition.autoStart) {
        outcome := PlayAnimation();
      }
      if !ColoursReadable(vm.settings) {
        return Threw;
      }
      outcome := RefreshCaption();
    }

    method Reselect(jsonFilters: seq<Option<HostFilter>>) returns (outcome: Outcome)
      requires view.Some? && endSelected == |view.value.dataPoints| - 1
      modifies this
      ensures After(State(), outcome) == Playback.Reselect(old(State()), jsonFilters)
    {
      if |jsonFilters| > 0 && jsonFilters[0].Some? && jsonFilters[0].value.values.Some?
         && |jsonFilters[0].value.values.value| > 0 {
        lastSelected := jsonFilters[0].value.values.value[0];
      } else {
        lastSelected := endSelected;
      }
      ApplyFilter();
      log := log + [ClearSelection];
      if endSelected == -1 {
        return Threw;
      }
      log := log + [Select(endSelected)];
      outcome := ControlButton();
      outcome := Done;
    }

    /**
     * The caption part of `update`: refresh it unless playing when shown, then throw at
     * `getBBox` on the HTML `<select>`; clear it when hidden.
     */
    method RefreshCaption() returns (outcome: Outcome)
      requires view.Some?
      modifies this
      ensures After(State(), outcome) == Playback.RefreshCaption(old(State()))
    {
      var v := view.value;
      if Truthy(v.settings.caption.show) {
        if status != Play {
          if !(0 <= lastSelected < |v.dataPoints|) {
            return Threw;
          }
          UpdateCaption(v.dataPoints[lastSelected].category);
        }
        return Threw;
      }
      caption := [];
      outcome := Done;
    }

    // ------------------------------------------------------------ the timer callbacks

    method StepCallback(i: int) returns (outcome: Outcome)
      modifies this
      ensures After(State(), outcome) == Playback.StepCallback(old(State()), i)
    {
      if view.None? || !(0 <= i < |view.value.dataPoints|) {
        return Threw;
      }
      log := log + [Select(i)];
      lastSelected := i;
      UpdateCaption(view.value.dataPoints[i].category);
      outcome := Done;
    }

    method TerminalCallback() returns (outcome: Outcome)
      modifies this
      ensures After(State(), outcome) == Playback.TerminalCallback(old(State()))
    {
      if view.None? {
        return Threw;
      }
      if Truthy(view.value.settings.transition.loop) {
        status := Stop;
        lastSelected := -1;
        outcome := PlayAnimation();
      } else {
        outcome := StopAnimation();
      }
    }

    /** The event loop runs the callback of the timer due first; the clock moves to its due time. */
    method FireNext() returns (outcome: Outcome)
      modifies this
      ensures After(State(), outcome) == Playback.Fire(old(State()))
    {
      if pending == [] {
        return Done;
      }
      var j := FindEarliest(pending);
      var t := pending[j];
      pending := pending[..j] + pending[j + 1..];
      now := t.due;
      match t.action
      case StepTo(i) =>
        outcome := StepCallback(i);
      case Terminal =>
        outcome := TerminalCallback();
    }
    // ------------------------------------------------------------ the events

    /** One event, handled as `Dispatch` says; the invariant between events is kept. */
    method Handle(e: Event) returns (outcome: Outcome)
      modifies this
      ensures After(State(), outcome) == Dispatch(old(State()), e)
      ensures Settled(old(State())) ==> Settled(State()) && now >= old(now)
    {
      ghost var w := State();
      if Settled(w) {
        DispatchKeepsSettled(w, e);
      }
      match e
      case PlayClicked => outcome := PlayAnimation();
      case PauseClicked => outcome := PauseAnimation();
      case PreviousClicked => outcome := Step(-1);
      case NextClicked => outcome := Step(1);
      case CaptionChanged(value) => outcome := UpdateSelect(value);
      case HostUpdate(options, selectedText) => outcome := Update(options, selectedText);
      case TimerFired => outcome := FireNext();
    }
  }
}
