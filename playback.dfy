/**
 * The playback state machine of the `Visual` class as values: one function per
 * operation, from the whole widget state before the call to the state after it and
 * whether a TypeError escaped.  The class in `visual.dfy` is proved against these.
 */
module Playback {
  import opened Wrappers
  import opened Settings
  import opened DataViews
  import opened Caption
  import opened Filter
  import opened Scheduler

  datatype Status = Play | Pause | Stop

  /** Button opacities: true is full opacity (1), false is dimmed (0.3). */
  datatype Buttons = Buttons(play: bool, pause: bool, previous: bool, next: bool)

  /** Calls into the host, in the order they are made. */
  datatype HostCall = Select(index: int) | ClearSelection | ApplyJsonFilter(filter: BasicFilter)

  /** `Threw`: a TypeError escaped the handler; the changes made before it stay. */
  datatype Outcome = Done | Threw

  /** What the last accepted update left: settings, data points and the bound column. */
  datatype View = View(settings: VisualSettings, dataPoints: seq<DataPoint>, source: ColumnSource)

  /** The fields of `Visual` the core reads and writes; `view` is `None` before the first update. */
  datatype Widget = Widget(
    view: Option<View>,
    status: Status,
    lastSelected: int,
    endSelected: int,
    timers: seq<nat>,
    pending: seq<Timer>,
    now: int,
    nextHandle: nat,
    buttons: Buttons,
    caption: seq<CaptionOption>,
    log: seq<HostCall>)

  datatype After = After(w: Widget, outcome: Outcome)

  function Categories(v: View): seq<string> {
    seq(|v.dataPoints|, i requires 0 <= i < |v.dataPoints| => v.dataPoints[i].category)
  }

  /** The buttons `resetAnimation` sets up. */
  function ResetButtons(autoStart: bool): Buttons {
    if autoStart then Buttons(play := false, pause := true, previous := false, next := false)
    else Buttons(play := true, pause := false, previous := false, next := false)
  }

  function ResetAnimation(w: Widget, autoStart: bool): Widget {
    w.(lastSelected := -1, buttons := ResetButtons(autoStart))
  }

  /** The state the constructor leaves (`endSelected` is not yet assigned there; -1 stands for it). */
  function Initial(): Widget {
    ResetAnimation(Widget(None, Pause, -1, -1, [], [], 0, 1, Buttons(true, true, true, true), [], []), false)
  }

  /** `controlButton`: previous is dimmed iff the index is <= 0, next iff it is >= N-1. */
  function ControlButton(w: Widget): After {
    if w.view.None? then After(w, Threw)
    else
      var n := |w.view.value.dataPoints|;
      After(w.(buttons := w.buttons.(previous := w.lastSelected > 0, next := w.lastSelected < n - 1)), Done)
  }

  /** `applyFilter`: an `In` filter with the current index on the bound table and column. */
  function ApplyFilter(w: Widget): Widget
    requires w.view.Some?
  {
    w.(log := w.log + [ApplyJsonFilter(FilterFor(w.view.value.source, w.lastSelected))])
  }

  /** `updateCaption`: when the caption is shown, rewrite the option list. */
  function UpdateCaption(w: Widget, caption: string): Widget
    requires w.view.Some?
  {
    if Truthy(w.view.value.settings.caption.show) then w.(caption := CaptionOptions(Categories(w.view.value), caption))
    else w
  }

  /** The `for (let i of this.timers) clearTimeout(i)` loop. */
  function CancelTimers(w: Widget): Widget {
    w.(pending := Without(w.pending, w.timers))
  }

  /** The index `playAnimation` starts after: the last index wraps to -1. */
  function PlayBase(lastSelected: int, n: int): int {
    if lastSelected == n - 1 then -1 else lastSelected
  }

  function PlayAnimation(w: Widget): After {
    if w.status == Play then After(w, Done)
    else
      var w1 := w.(buttons := Buttons(play := false, pause := true, previous := false, next := false));
      if w1.view.None? then After(w1, Threw)   // `this.viewModel.settings` on `undefined`
      else
        var v := w1.view.value;
        var n := |v.dataPoints|;
        var last := PlayBase(w1.lastSelected, n);
        var s := PlaySchedule(last, n, IntervalMs(v.settings.transition.timeInterval));
        var w2 := w1.(lastSelected := last,
                      pending := w1.pending + Stamp(s, w1.now, w1.nextHandle),
                      timers := w1.timers + Handles(w1.nextHandle, |s|),
                      nextHandle := w1.nextHandle + |s|,
                      status := Play);
        After(ApplyFilter(w2), Done)
  }

  function StopAnimation(w: Widget): After {
    if w.status == Stop then After(w, Done)
    else
      var w1 := CancelTimers(w.(buttons := Buttons(play := true, pause := false, previous := false, next := false)));
      if w1.view.None? then After(w1, Threw)   // `this.visualDataPoints.length` on `undefined`
      else StopAtEnd(w1)
  }

  /** The rest of `stopAnimation` once the timers are cancelled: settle on the last index. */
  function StopAtEnd(w: Widget): After
    requires w.view.Some?
  {
    var v := w.view.value;
    var n := |v.dataPoints|;
    var w2 := w.(endSelected := n - 1);
    if n == 0 then After(w2, Threw)         // `dataPoints[-1].category`
    else
      var w3 := UpdateCaption(w2, v.dataPoints[n - 1].category);
      var w4 := w3.(lastSelected := n - 1, log := w3.log + [ClearSelection, Select(n - 1)]);
      After(ControlButton(w4).w.(status := Pause), Done)
  }

  function PauseAnimation(w: Widget): After {
    if w.status == Pause || w.lastSelected == -1 then After(w, Done)
    else
      var w1 := CancelTimers(w.(buttons := w.buttons.(pause := false, play := true)));
      var c := ControlButton(w1);
      if c.outcome == Threw then c else After(c.w.(status := Pause), Done)
  }

  function Step(w: Widget, step: int): After {
    if w.status == Play || w.status == Stop then After(w, Done)
    else if w.lastSelected + step < 0 then After(w, Done)
    else if w.view.None? then After(w, Threw)  // `this.viewModel.dataPoints` on `undefined`
    else
      var v := w.view.value;
      var n := |v.dataPoints|;
      var target := w.lastSelected + step;
      if target > n - 1 then After(w, Done)
      else
        var w1 := w.(buttons := w.buttons.(previous := target != 0, next := target != n - 1),
                     lastSelected := target,
                     log := w.log + [Select(target)]);
        After(UpdateCaption(w1, v.dataPoints[target].category).(status := Pause), Done)
  }

  /** `updateSelect` with the value of the chosen option, already converted by `+`. */
  function UpdateSelect(w: Widget, value: int): After {
    var w1 := w.(lastSelected := value);
    if w1.view.None? || !(0 <= value < |w1.view.value.dataPoints|) then After(w1, Threw)
    else
      var w2 := w1.(log := w1.log + [Select(value)], status := Pause);
      After(ApplyFilter(ControlButton(w2).w), Done)
  }

  /** The callback of a step timer for index `i`: select it, make it current, refresh the caption. */
  function StepCallback(w: Widget, i: int): After {
    if w.view.None? || !(0 <= i < |w.view.value.dataPoints|) then After(w, Threw)
    else
      var w1 := w.(log := w.log + [Select(i)], lastSelected := i);
      After(UpdateCaption(w1, w.view.value.dataPoints[i].category), Done)
  }

  /** The callback of the terminal timer: replay from the start with `loop`, otherwise stop. */
  function TerminalCallback(w: Widget): After {
    if w.view.None? then After(w, Threw)
    else if Truthy(w.view.value.settings.transition.loop) then PlayAnimation(w.(status := Stop, lastSelected := -1))
    else StopAnimation(w)
  }

  function RunCallback(w: Widget, action: Action): After {
    match action
    case StepTo(i) => StepCallback(w, i)
    case Terminal => TerminalCallback(w)
  }

  /** The timer that fires next leaves the pending list, the clock moves to it and its callback runs. */
  function Fire(w: Widget): After {
    if w.pending == [] then After(w, Done)
    else
      var j := EarliestIndex(w.pending);
      RunCallback(w.(pending := w.pending[..j] + w.pending[j + 1..], now := w.pending[j].due), w.pending[j].action)
  }

  /**
   * The early return of `update`: the current index names a data point whose text is
   * the text of the caption's selected option (`None` when that read throws).
   */
  predicate CaptionMatches(dataPoints: seq<DataPoint>, lastSelected: int, selectedText: Option<string>) {
    0 <= lastSelected < |dataPoints| && selectedText == Some(dataPoints[lastSelected].category)
  }

  /** The core of `update`: rebuild the view model, resync the index, reselect and refresh. */
  function Update(w: Widget, options: UpdateOptions, selectedText: Option<string>): After {
    match IsDataReady(options)
    case NotReady => After(w, Done)
    case ThrowsTypeError => After(w, Threw)
    case Ready =>
      var vm := ViewModelOf(options);
      var v := View(vm.settings, vm.dataPoints, FirstCategory(options).source.value);
      var w1 := w.(view := Some(v), endSelected := |vm.dataPoints| - 1);
      if CaptionMatches(vm.dataPoints, w.lastSelected, selectedText) then After(w1, Done)
      else
        var w1a := w1.(lastSelected := |vm.dataPoints| - 1);   // the try block's fallback to `endSelected`
        if options.jsonFilters.None? then After(w1a, Threw)   // `jsonFilters.length` on `undefined`
        else
        var r := Reselect(w1a, options.jsonFilters.value);
        if r.outcome == Threw then r
        else
          var w5 := if Truthy(vm.settings.transition.autoStart) then PlayAnimation(r.w).w else r.w;
          if !ColoursReadable(vm.settings) then After(w5, Threw)   // `.solid.color` on a value that is not a fill
          else RefreshCaption(w5)
  }

  /**
   * The colour leaves `update` reads `.solid.color` from are fills: the five button
   * colours when `showAll` is truthy, otherwise `pickedColor`, and `captionColor` always.
   */
  predicate ColoursReadable(s: VisualSettings) {
    var c := s.colorSelector;
    && (Truthy(c.showAll) ==>
          c.playColor.Fill? && c.pauseColor.Fill? && c.stopColor.Fill? && c.previousColor.Fill? && c.nextColor.Fill?)
    && (!Truthy(c.showAll) ==> c.pickedColor.Fill?)
    && s.caption.captionColor.Fill?
  }

  /**
   * The middle of `update`: take the index from the host's filter, apply the filter,
   * clear the selection and select the last data point.
   */
  function Reselect(w: Widget, jsonFilters: seq<Option<HostFilter>>): After
    requires w.view.Some?
  {
    var n := |w.view.value.dataPoints|;
    var w2 := ApplyFilter(w.(lastSelected := ResyncIndex(n, jsonFilters)));
    var w3 := w2.(log := w2.log + [ClearSelection]);
    if n == 0 then After(w3, Threw)         // `dataPoints[-1].selectionId`
    else After(ControlButton(w3.(log := w3.log + [Select(n - 1)])).w, Done)
  }

  /**
   * The end of `update`: when shown and not playing the caption is rewritten, when hidden
   * it is cleared. A shown caption always ends in a TypeError: `#label` is the HTML
   * `<select>` inside the `<foreignObject>`, which has no `getBBox`.
   */
  function RefreshCaption(w: Widget): After
    requires w.view.Some?
  {
    var v := w.view.value;
    if Truthy(v.settings.caption.show) then
      if w.status != Play then
        if 0 <= w.lastSelected < |v.dataPoints| then After(UpdateCaption(w, v.dataPoints[w.lastSelected].category), Threw)
        else After(w, Threw)             // `dataPoints[lastSelected].category`
      else After(w, Threw)               // `node.getBBox()`
    else After(w.(caption := []), Done)
  }

  /** What can happen to the widget: the four buttons, the caption selector, the host, a timer. */
  datatype Event =
    | PlayClicked
    | PauseClicked
    | PreviousClicked
    | NextClicked
    | CaptionChanged(value: int)
    | HostUpdate(options: UpdateOptions, selectedText: Option<string>)
    | TimerFired

  function Dispatch(w: Widget, e: Event): After {
    match e
    case PlayClicked => PlayAnimation(w)
    case PauseClicked => PauseAnimation(w)
    case PreviousClicked => Step(w, -1)
    case NextClicked => Step(w, 1)
    case CaptionChanged(value) => UpdateSelect(w, value)
    case HostUpdate(options, selectedText) => Update(w, options, selectedText)
    case TimerFired => Fire(w)
  }

  /** The state after a sequence of events; an escaped exception ends only its own handler. */
  function Run(w: Widget, events: seq<Event>): Widget
    decreases |events|
  {
    if events == [] then w else Run(Dispatch(w, events[0]).w, events[1..])
  }

  /** `m` timers firing one after another, with no other event in between. */
  function FireTimes(w: Widget, m: nat): Widget
    decreases m
  {
    if m == 0 then w else Fire(FireTimes(w, m - 1)).w
  }

  /** Every pending timer has a handle in `timers` and is not yet due in the past. */
  ghost predicate SchedulerOk(w: Widget) {
    forall k :: 0 <= k < |w.pending| ==> w.pending[k].handle in w.timers && w.pending[k].due >= w.now
  }

  /** The invariant between events: the scheduler is consistent and `Stop` is not the status. */
  ghost predicate Settled(w: Widget) {
    SchedulerOk(w) && w.status != Stop
  }
}
