/** What each handler does to the widget: stop, pause, the step buttons, the selector and `update`. */
module ControlProperties {
  import opened Wrappers
  import opened Settings
  import opened DataViews
  import opened Caption
  import opened Filter
  import opened Scheduler
  import opened Playback

  /** With a consistent scheduler, clearing every handle in `timers` cancels every pending timer. */
  lemma CancelClearsAll(w: Widget)
    requires SchedulerOk(w)
    ensures CancelTimers(w).pending == []
  {
    CancelAllCovered(w.pending, w.timers);
  }

  // ---------------------------------------------------------------- stop

  /**
   * `stopAnimation` with data: nothing stays pending, the index and `endSelected` are
   * the last index `N-1`, the host clears its selection and selects `N-1`, the caption
   * is redrawn for that data point, play is lit, pause and next are dimmed, previous is
   * lit iff `N-1 > 0`, and the status ends at `Pause`.
   */
  lemma StopSettlesAtEnd(w: Widget)
    requires SchedulerOk(w) && w.status != Stop
    requires w.view.Some? && |w.view.value.dataPoints| > 0
    ensures var v := w.view.value;
            var n := |v.dataPoints|;
            var r := StopAnimation(w);
            && r.outcome == Done && r.w.status == Pause && r.w.pending == []
            && r.w.lastSelected == n - 1 && r.w.endSelected == n - 1
            && r.w.log == w.log + [ClearSelection, Select(n - 1)]
            && r.w.buttons == Buttons(play := true, pause := false, previous := n - 1 > 0, next := false)
            && r.w.caption == (if Truthy(v.settings.caption.show) then CaptionOptions(Categories(v), v.dataPoints[n - 1].category) else w.caption)
            && r.w.view == w.view && r.w.timers == w.timers && r.w.now == w.now
  {
    CancelClearsAll(w);
  }

  /**
   * Apart from the guard on `Stop`, `stopAnimation` always cancels every pending timer and
   * sets play lit and pause dimmed; it completes exactly when there is a view with data.
   */
  lemma StopOutcome(w: Widget)
    requires SchedulerOk(w) && w.status != Stop
    ensures var r := StopAnimation(w);
            && r.w.pending == [] && r.w.buttons.play && !r.w.buttons.pause
            && (r.outcome == Done <==> w.view.Some? && |w.view.value.dataPoints| > 0)
            && (r.outcome == Threw ==> r.w.status == w.status && r.w.log == w.log)
  {
    CancelClearsAll(w);
  }

  // ---------------------------------------------------------------- pause

  /**
   * `pauseAnimation` does nothing when already paused or when no index is current yet
   * (so a pause right after a play from -1 leaves the timers running).  Otherwise it
   * cancels every pending timer, keeps the index, lights play, dims pause, sets
   * previous and next by the index and ends at `Pause`.
   */
  lemma PauseFreezesIndex(w: Widget)
    requires SchedulerOk(w)
    ensures w.status == Pause || w.lastSelected == -1 ==> PauseAnimation(w) == After(w, Done)
    ensures w.status != Pause && w.lastSelected != -1 && w.view.Some? ==>
              var n := |w.view.value.dataPoints|;
              var r := PauseAnimation(w);
              && r.outcome == Done && r.w.status == Pause && r.w.pending == []
              && r.w.lastSelected == w.lastSelected && r.w.log == w.log
              && r.w.buttons == Buttons(play := true, pause := false, previous := w.lastSelected > 0, next := w.lastSelected < n - 1)
    ensures w.status != Pause && w.lastSelected != -1 && w.view.None? ==>
              PauseAnimation(w).outcome == Threw
  {
    CancelClearsAll(w);
  }

  // ---------------------------------------------------------------- previous / next

  /**
   * `step`: ignored while playing (or stopping); from `Pause` it moves to
   * `lastSelected + step` exactly when that is an index of the data, selecting it and
   * setting previous and next by the same rule as `controlButton`; otherwise nothing
   * changes.  Before the first update a move to an index >= 0 throws and changes nothing.
   */
  lemma StepMoves(w: Widget, step: int)
    ensures w.status != Pause ==> Step(w, step) == After(w, Done)
    ensures w.status == Pause && w.view.None? && w.lastSelected + step >= 0 ==> Step(w, step) == After(w, Threw)
    ensures w.status == Pause && w.view.Some? ==>
              var n := |w.view.value.dataPoints|;
              var target := w.lastSelected + step;
              var r := Step(w, step);
              && r.outcome == Done
              && (0 <= target < n ==>
                    && r.w.lastSelected == target && r.w.status == Pause
                    && r.w.log == w.log + [Select(target)]
                    && r.w.buttons == w.buttons.(previous := target > 0, next := target < n - 1)
                    && r.w.pending == w.pending && r.w.timers == w.timers && r.w.view == w.view)
              && (!(0 <= target < n) ==> r.w == w)
  {
  }

  /** From `Pause` at an index before the last, next then previous comes back to it and selects it again. */
  lemma StepThereAndBack(w: Widget)
    requires w.status == Pause && w.view.Some?
    requires 0 <= w.lastSelected < |w.view.value.dataPoints| - 1
    ensures var l := w.lastSelected;
            var n := |w.view.value.dataPoints|;
            var r := Step(Step(w, 1).w, -1);
            && r.outcome == Done && r.w.status == Pause && r.w.lastSelected == l
            && r.w.log == w.log + [Select(l + 1), Select(l)]
            && r.w.buttons.previous == (l > 0) && r.w.buttons.next == (l < n - 1)
            && r.w.pending == w.pending
  {
    StepMoves(w, 1);
    StepMoves(Step(w, 1).w, -1);
  }

  // ---------------------------------------------------------------- caption selector

  /**
   * `updateSelect(value)`: the index becomes `value` whatever happens next; it
   * completes exactly when `value` is an index of the data, selecting it, pausing,
   * setting previous and next and applying the filter for it.  The pending timers
   * are left as they are: a selection during play does not cancel the run.
   */
  lemma UpdateSelectJumps(w: Widget, value: int)
    ensures var r := UpdateSelect(w, value);
            && r.w.lastSelected == value && r.w.pending == w.pending && r.w.timers == w.timers
            && (r.outcome == Done <==> w.view.Some? && 0 <= value < |w.view.value.dataPoints|)
            && (r.outcome == Done ==>
                  && r.w.status == Pause
                  && r.w.log == w.log + [Select(value), ApplyJsonFilter(FilterFor(w.view.value.source, value))]
                  && r.w.buttons == w.buttons.(previous := value > 0, next := value < |w.view.value.dataPoints| - 1))
            && (r.outcome == Threw ==> r.w.status == w.status && r.w.log == w.log)
  {
  }

  // ---------------------------------------------------------------- update

  /** An update whose data is not ready changes nothing; one with an empty category array throws. */
  lemma UpdateNotReady(w: Widget, options: UpdateOptions, selectedText: Option<string>)
    requires IsDataReady(options) != Ready
    ensures Update(w, options, selectedText).w == w
    ensures Update(w, options, selectedText).outcome == Done <==> IsDataReady(options) == NotReady
  {
  }

  /**
   * When the current index already names the data point shown in the caption, `update`
   * only takes the new view model and `endSelected`: no host call, no filter, the
   * index, status and timers unchanged.
   */
  lemma UpdateEarlyReturn(w: Widget, options: UpdateOptions, selectedText: Option<string>)
    requires IsDataReady(options) == Ready
    requires CaptionMatches(ViewModelOf(options).dataPoints, w.lastSelected, selectedText)
    ensures var vm := ViewModelOf(options);
            var r := Update(w, options, selectedText);
            && r.outcome == Done
            && r.w == w.(view := Some(View(vm.settings, vm.dataPoints, FirstCategory(options).source.value)),
                         endSelected := |vm.dataPoints| - 1)
  {
  }

  /**
   * When the host passes no `jsonFilters` array, `update` throws at its length: the
   * index has just fallen back to `N-1`; no filter, no host selection, no timer change.
   */
  lemma UpdateWithoutFiltersThrows(w: Widget, options: UpdateOptions, selectedText: Option<string>)
    requires IsDataReady(options) == Ready
    requires !CaptionMatches(ViewModelOf(options).dataPoints, w.lastSelected, selectedText)
    requires options.jsonFilters.None?
    ensures var vm := ViewModelOf(options);
            var r := Update(w, options, selectedText);
            && r.outcome == Threw
            && r.w == w.(view := Some(View(vm.settings, vm.dataPoints, FirstCategory(options).source.value)),
                         endSelected := |vm.dataPoints| - 1, lastSelected := |vm.dataPoints| - 1)
  {
  }

  /**
   * Otherwise `update` resyncs: it takes the index from the host's json filter (or the
   * last index) and applies the filter for it, then clears the host's selection.
   * Without data it throws right there.
   */
  lemma UpdateResyncsWithoutData(w: Widget, options: UpdateOptions, selectedText: Option<string>)
    requires IsDataReady(options) == Ready
    requires options.jsonFilters.Some?
    requires !CaptionMatches(ViewModelOf(options).dataPoints, w.lastSelected, selectedText)
    requires |ViewModelOf(options).dataPoints| == 0
    ensures var vm := ViewModelOf(options);
            var source := FirstCategory(options).source.value;
            var l := ResyncIndex(0, options.jsonFilters.value);
            var r := Update(w, options, selectedText);
            && r.outcome == Threw
            && r.w.view == Some(View(vm.settings, vm.dataPoints, source)) && r.w.endSelected == -1
            && r.w.lastSelected == l && r.w.status == w.status && r.w.pending == w.pending
            && r.w.log == w.log + [ApplyJsonFilter(FilterFor(source, l)), ClearSelection]
  {
  }

  /**
   * With data and without `autoStart`, it goes on to select the last index on the host
   * and sets previous and next for the resynced index, which stays current; the status
   * and the timers are untouched.
   */
  lemma UpdateResyncs(w: Widget, options: UpdateOptions, selectedText: Option<string>)
    requires IsDataReady(options) == Ready
    requires options.jsonFilters.Some?
    requires !CaptionMatches(ViewModelOf(options).dataPoints, w.lastSelected, selectedText)
    requires |ViewModelOf(options).dataPoints| > 0
    requires !Truthy(ViewModelOf(options).settings.transition.autoStart)
    ensures var vm := ViewModelOf(options);
            var n := |vm.dataPoints|;
            var source := FirstCategory(options).source.value;
            var l := ResyncIndex(n, options.jsonFilters.value);
            var r := Update(w, options, selectedText);
            && r.w.view == Some(View(vm.settings, vm.dataPoints, source)) && r.w.endSelected == n - 1
            && r.w.lastSelected == l && r.w.status == w.status && r.w.pending == w.pending
            && r.w.log == w.log + [ApplyJsonFilter(FilterFor(source, l)), ClearSelection, Select(n - 1)]
            && r.w.buttons == w.buttons.(previous := l > 0, next := l < n - 1)
            && (r.outcome == Done <==> ColoursReadable(vm.settings) && !Truthy(vm.settings.caption.show))
            && (ColoursReadable(vm.settings) && Truthy(vm.settings.caption.show) && w.status != Play && 0 <= l < n ==>
                  r.w.caption == CaptionOptions(Categories(r.w.view.value), vm.dataPoints[l].category))
            && (ColoursReadable(vm.settings) && !Truthy(vm.settings.caption.show) ==> r.w.caption == [])
  {
  }

  /** With data and `autoStart`, after the same host calls the widget plays. */
  lemma UpdateAutoStarts(w: Widget, options: UpdateOptions, selectedText: Option<string>)
    requires IsDataReady(options) == Ready
    requires options.jsonFilters.Some?
    requires !CaptionMatches(ViewModelOf(options).dataPoints, w.lastSelected, selectedText)
    requires |ViewModelOf(options).dataPoints| > 0
    requires Truthy(ViewModelOf(options).settings.transition.autoStart)
    ensures var vm := ViewModelOf(options);
            var n := |vm.dataPoints|;
            var source := FirstCategory(options).source.value;
            var prefix := w.log + [ApplyJsonFilter(FilterFor(source, ResyncIndex(n, options.jsonFilters.value))), ClearSelection, Select(n - 1)];
            var r := Update(w, options, selectedText);
            && (r.outcome == Done <==> ColoursReadable(vm.settings) && !Truthy(vm.settings.caption.show))
            && r.w.status == Play && r.w.endSelected == n - 1
            && |r.w.log| >= |prefix| && r.w.log[..|prefix|] == prefix
  {
    var vm := ViewModelOf(options);
    var n := |vm.dataPoints|;
    var source := FirstCategory(options).source.value;
    var l := ResyncIndex(n, options.jsonFilters.value);
    var prefix := w.log + [ApplyJsonFilter(FilterFor(source, l)), ClearSelection, Select(n - 1)];
    var w1 := w.(view := Some(View(vm.settings, vm.dataPoints, source)), endSelected := n - 1);
    var w4 := ControlButton(ApplyFilter(w1.(lastSelected := l)).(log := prefix)).w;
    assert w4.log == prefix;
    var w5 := PlayAnimation(w4).w;
    assert w5.log[..|prefix|] == prefix;
  }

  /**
   * A colour leaf persisted in another shape than a fill makes `update` throw after the
   * resync (and the autostart), before the caption is refreshed: the options stay as they were.
   */
  lemma UpdateUnreadableColourThrows(w: Widget, options: UpdateOptions, selectedText: Option<string>)
    requires IsDataReady(options) == Ready
    requires options.jsonFilters.Some?
    requires !CaptionMatches(ViewModelOf(options).dataPoints, w.lastSelected, selectedText)
    requires |ViewModelOf(options).dataPoints| > 0
    requires !ColoursReadable(ViewModelOf(options).settings)
    ensures var r := Update(w, options, selectedText);
            && r.outcome == Threw && r.w.caption == w.caption
            && r.w.endSelected == |ViewModelOf(options).dataPoints| - 1
  {
  }

  /** The colours of the default table are all fills, so with nothing persisted they never throw. */
  lemma DefaultColoursReadable()
    ensures ColoursReadable(DefaultSettings)
  {
  }

  /**
   * A bookmark round trip: when the host hands back the filter `applyFilter` wrote for
   * index `i`, an update without `autoStart` makes `i` current again and reapplies it.
   */
  lemma BookmarkRestoresIndex(w: Widget, options: UpdateOptions, selectedText: Option<string>, i: int)
    requires IsDataReady(options) == Ready
    requires !CaptionMatches(ViewModelOf(options).dataPoints, w.lastSelected, selectedText)
    requires |ViewModelOf(options).dataPoints| > 0
    requires !Truthy(ViewModelOf(options).settings.transition.autoStart)
    requires options.jsonFilters == Some([Some(HostFilter(Some(FilterFor(FirstCategory(options).source.value, i).values)))])
    ensures var r := Update(w, options, selectedText);
            && r.w.lastSelected == i
            && r.w.log[|w.log|] == ApplyJsonFilter(FilterFor(FirstCategory(options).source.value, i))
  {
    RestoredFilterRoundTrip(FirstCategory(options).source.value, i, |ViewModelOf(options).dataPoints|);
    UpdateResyncs(w, options, selectedText);
  }
}
