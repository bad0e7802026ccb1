# Timeline playback visual, modelled in Dafny

This project models the core of a Power BI timeline/playback visual (`src/visual.ts`).
The visual shows one category column as a strip of time periods. Four buttons (play,
pause, previous, next) walk through the periods. A caption selector lists them. The
current period goes to the host as a basic `In` filter and as a selection.

The model has two layers.

- **Reference state machine**: module `Playback` in `playback.dfy`. `Widget` holds every
  field of the class that the core reads or writes: the status, `lastSelected`,
  `endSelected`, the `timers` handle list, the pending timers and the clock, the button
  opacities, the caption options and a log of calls into the host. Each handler is a
  function from the state before the call to an `After` value: the new state plus
  whether a TypeError escaped (`Threw`). As in JavaScript, assignments made before the
  throw stay.
- **The `Visual` class**: module `TimelineVisual` in `visual.dfy`. It has the same
  fields, updated in place. Its methods keep the source's loops: the `setTimeout`
  loop of `playAnimation`, the `clearTimeout` loops of stop and pause, and the option
  loop of `updateCaption`. Each handler's `ensures` ties the new object state and the
  outcome to the matching `Playback` function of the old state. `Handle` dispatches
  one event and keeps the invariant between events. The timer helpers (`SetTimeout`,
  `ClearTimeout`, `PushTimer`, `ScheduleRun`) state their field updates directly.

The other modules:

- `Settings`: `getValue` and the settings resolver with its default table.
- `DataViews`: `isDataReady`, and the data-point construction of `visualTransform`.
- `Caption`: the descending sort and the option list of `updateCaption`.
- `Filter`: the filter target of `applyFilter` and the index resync of `update`.
- `Scheduler`: an abstract `setTimeout`/`clearTimeout`. Each pending entry holds a
  handle, a due time and an action (`StepTo(i)` or `Terminal`). The event loop fires
  the first pending timer with the smallest due time.

Properties of the pure parts sit beside their definitions:

- `Settings`: the lookup and the defaults.
- `Caption`: the sort and the option list.
- `Filter`: the table prefix and the resync.
- `Scheduler`: the play schedule and the choice of the next timer.

Properties of the state machine are proved in three more modules:

- `PlaybackProperties`: a whole run to its end or its loop.
- `ControlProperties`: what each handler does.
- `SettledInvariant`: every event keeps each pending timer cancellable and never
  leaves `Stop` as the status between events.

The model follows the code where it and a natural reading of the behaviour differ:

- `update` takes the index from the host's filter without clamping it to `[0, N-1]`.
- Option `k` of the caption is tagged `N-1-k`. That tag is the data position of its
  text only when the data comes in ascending order.
- `updateSelect` does not cancel running timers.
- The filter table is empty when `queryName` has no dot.
- `stopAnimation` ends at status `Pause`, so `Stop` is seen only inside the terminal
  callback.
- `pauseAnimation` does nothing while `lastSelected` is -1.
- With the caption shown, `update` ends in a TypeError at `getBBox` (line 350): `#label` is
  the HTML `<select>` written into a `<foreignObject>`, which has no `getBBox`. The caption
  options are rewritten before the throw.

Inputs that the code reads from the DOM are parameters:

- the caption's selected text in `update` is `Option<string>`, `None` when reading it
  throws;
- the selector's value in `updateSelect` is an `int`, already converted by `+`.

## Model

| member | source | states |
|---|---|---|
| Settings.GetValueIsStoredOrDefault | src/visual.ts:60-71 | the lookup returns `objects[objectName][propertyName]` when both links exist and the property is not undefined (a stored `null` included), and the default otherwise |
| Settings.PersistedLeafOverrides | src/visual.ts:105-126 | every leaf of the resolved settings that the host persisted is the persisted value, whatever its shape |
| Settings.UndefinedLeafDefaults | src/visual.ts:82-126 | every leaf that is not persisted takes its entry of the default table |
| Settings.NothingPersistedYieldsDefaults | src/visual.ts:82-126 | with nothing persisted the settings are exactly the default table: timeInterval 2000, fontSize 16, show true, align "left", autoStart, loop and showAll false |
| DataViews.ReadyBindsCategory | src/visual.ts:145-157 | the data is ready exactly when the first data view has a categorical with categories whose first column has a source; it then binds that column |
| DataViews.BuildDataPoints | src/visual.ts:128-136 | one data point per category value, in order: the value as text, selection id `i`, not selected |
| DataViews.VisualTransform | src/visual.ts:74-142 | the view model holds one data point per value of the first category column and the settings resolved from the first view's objects |
| Caption.SortDescendingCorrect | src/visual.ts:481 | the sort's output is in non-increasing string order and is a permutation of its input |
| Caption.DescendingPermutationUnique | src/visual.ts:481 | two non-increasing arrangements of the same strings are equal, so every correct descending sort gives the same list |
| Caption.RenderOptions | src/visual.ts:481-485 | the option loop builds exactly the option list of the sorted categories |
| Caption.CaptionOptionsMeaning | src/visual.ts:479-490 | exactly N options, texts non-increasing and a permutation of the categories, option `k` tagged `N-1-k`, selected iff its text equals the caption |
| Caption.TagIsPositionWhenAscending | src/visual.ts:483-485 | when the categories arrive strictly ascending, each option's tag is the data position of its text |
| Caption.TagNotPositionOtherwise | src/visual.ts:483-485 | with data ["B", "A"] the option "B" is tagged 1, the position of "A" |
| Filter.IndexOf | src/visual.ts:518 | `indexOf` gives the first position of the character, or -1 exactly when it is absent |
| Filter.Substr | src/visual.ts:518 | `substr(0, len)` is the prefix of length `len`, and empty for a negative length |
| Filter.TableBeforeFirstDot | src/visual.ts:517-521 | the filter table is the part of `queryName` before its first dot, and empty when there is no dot |
| Filter.RestoredFilterRoundTrip | src/visual.ts:281-288 | a filter written by `applyFilter` for index `i` and handed back by the host resyncs the index to `i` |
| Filter.NoFilterSelectsLast | src/visual.ts:281-290 | without a json filter, with a falsy one, or with one lacking values, the index becomes `N-1` |
| Filter.ResyncDoesNotClamp | src/visual.ts:286-287 | the restored value is taken as it is: value 7 with five data points gives index 7 |
| Scheduler.WithoutMembers | src/visual.ts:434-436 | after clearing a batch of handles, a timer is still pending iff it was pending and its handle is not in the batch |
| Scheduler.CancelAllCovered | src/visual.ts:453-455 | clearing every handle ever issued leaves nothing pending |
| Scheduler.EarliestIndexIsFirstMinimum | src/visual.ts:405-421 | the timer chosen to fire has the smallest due time, and no earlier pending timer is due as early |
| Scheduler.FindEarliest | src/visual.ts:405-421 | the scan of the pending list finds the timer that fires next |
| Scheduler.EarliestOfNondecreasing | src/visual.ts:405-421 | when due times never decrease along the list, its head fires first |
| Scheduler.PlayScheduleSteps | src/visual.ts:404-422 | the requests from index `L`: exactly one step per index `i` in `[L+1, N-1]` at delay `(i-L)*interval`, then the terminal one at `(N-L)*interval` |
| Scheduler.PlayScheduleIncreasing | src/visual.ts:404-422 | with a positive interval the delays strictly increase in index order, the terminal one last |
| Scheduler.PlayTimersInOrder | src/visual.ts:404-422 | for every interval the created timers are due in list order |
| Scheduler.StampedPlayTimers | src/visual.ts:404-422 | a step timer for index `i` exists iff `L+1 <= i <= N-1`, at one position and due `now + (i-L)*interval` (negative delays as 0); the terminal timer comes last |
| Scheduler.StampedPlayTimersIncreasing | src/visual.ts:404-422 | with a positive interval the created timers are due strictly one after another |
| PlaybackProperties.InitialIsSettled | src/visual.ts:180-246 | after construction: status Pause, index -1, no timers, no view, play lit and the other buttons dimmed, and the invariant holds |
| PlaybackProperties.PlayIsNoOpWhilePlaying | src/visual.ts:394 | `playAnimation` changes nothing while playing |
| PlaybackProperties.PlayAppendsSchedule | src/visual.ts:393-427 | otherwise it wraps `N-1` to -1, keeps the pending timers and appends the play schedule from `L`, sets Play and index `L`, and applies the filter for `L` |
| PlaybackProperties.FireStepHead | src/visual.ts:405-409 | a step timer at the head fires: the index becomes `i` and `i` is selected on the host; status, view and the other timers stay |
| PlaybackProperties.FireSteps | src/visual.ts:404-411 | the first `m` timers of a run fire the step timers in order: index `L+m`, selections `L+1 .. L+m` |
| PlaybackProperties.FireTerminalStops | src/visual.ts:414-420 | without `loop` the terminal timer settles the widget at `N-1`: Pause, nothing pending, selection cleared and `N-1` selected |
| PlaybackProperties.FireTerminalLoops | src/visual.ts:414-419 | with `loop` the terminal timer sets Stop and index -1, then plays again |
| PlaybackProperties.PlayRunsToEnd | src/visual.ts:393-446 | an uninterrupted run without `loop` selects `L+1 .. N-1` in order and ends at Pause on `N-1` with nothing pending, with the exact host log |
| PlaybackProperties.LoopRestartsFromZero | src/visual.ts:414-419 | with `loop` the run replays: Play from -1 with a fresh schedule whose first timer steps to index 0 |
| ControlProperties.CancelClearsAll | src/visual.ts:434-436 | with a consistent scheduler, the cancel loop leaves nothing pending |
| ControlProperties.StopSettlesAtEnd | src/visual.ts:429-446 | `stopAnimation` with data: Pause, nothing pending, `lastSelected == endSelected == N-1`, selection cleared and `N-1` selected, caption redrawn, play lit, pause and next dimmed, previous lit iff `N-1 > 0` |
| ControlProperties.StopOutcome | src/visual.ts:429-446 | unless stopped, stop always cancels everything and lights play; it completes iff there are data, and a throw leaves status and log unchanged |
| ControlProperties.PauseFreezesIndex | src/visual.ts:448-458 | pause is a no-op when paused or at index -1; otherwise it cancels every timer, keeps the index, sets the buttons by the index and ends at Pause |
| ControlProperties.StepMoves | src/visual.ts:460-477 | `step` is ignored unless paused; it moves to `lastSelected + d` exactly when that is an index, selecting it and setting previous/next as `controlButton` does; otherwise nothing changes |
| ControlProperties.StepThereAndBack | src/visual.ts:460-477 | from an interior index, next then previous comes back to it |
| ControlProperties.UpdateSelectJumps | src/visual.ts:492-502 | the index becomes the value whatever happens next; the call completes iff the value is an index, then selects it, pauses, sets the buttons and applies its filter; timers are left running |
| ControlProperties.UpdateNotReady | src/visual.ts:252-254 | an update whose data is not ready changes nothing; one with an empty category array throws |
| ControlProperties.UpdateEarlyReturn | src/visual.ts:262-272 | when the current index names the caption's selected text, update keeps only the new view model and `endSelected` |
| ControlProperties.UpdateWithoutFiltersThrows | src/visual.ts:264-282 | when the host passes no `jsonFilters` array, `update` throws at its length right after the index fell back to `N-1`: no filter, no host selection, nothing else changed |
| ControlProperties.UpdateResyncsWithoutData | src/visual.ts:281-297 | with no data the resync applies the filter for the restored index, clears the selection and throws |
| ControlProperties.UpdateResyncs | src/visual.ts:262-361 | without autoStart the resynced index stays current, `N-1` is selected, the buttons follow the index, status and timers stay; it completes iff every colour leaf read at lines 313-332 is a fill and the caption is hidden, because with the caption shown `getBBox` at line 350 throws on the HTML `<select>`; a shown caption, when not playing and the index is in range, still gets the option list for the current text first, and a hidden one is cleared |
| ControlProperties.UpdateAutoStarts | src/visual.ts:296-361 | with autoStart, after the same host calls the widget plays; the update completes iff every colour leaf it reads is a fill and the caption is hidden (`getBBox` at line 350 throws otherwise) |
| ControlProperties.UpdateUnreadableColourThrows | src/visual.ts:313-332 | a button or caption colour persisted as something other than a fill makes `update` throw before the caption refresh, so the caption options stay as they were |
| ControlProperties.DefaultColoursReadable | src/visual.ts:88-100 | every colour of the default table is a fill |
| ControlProperties.BookmarkRestoresIndex | src/visual.ts:281-297 | a filter handed back by the host restores its index and reapplies that filter |
| SettledInvariant.PlayKeepsScheduler | src/visual.ts:404-424 | play records the handle of every timer it creates, each due no earlier than now |
| SettledInvariant.UpdateKeepsSettled | src/visual.ts:249-362 | update keeps the invariant and the clock |
| SettledInvariant.FireKeepsSettled | src/visual.ts:405-421 | firing a timer keeps the invariant and never moves the clock back |
| SettledInvariant.DispatchKeepsSettled | src/visual.ts:225-242 | every event (button, selector, host update, timer) keeps the invariant |
| SettledInvariant.RunKeepsSettled | src/visual.ts:225-242 | any sequence of events keeps the invariant |
| SettledInvariant.StopIsTransient | src/visual.ts:414-445 | after any events from construction, the status is never Stop and every pending timer's handle is in `timers` |
| TimelineVisual.Visual.constructor | src/visual.ts:180-246 | the new object's state is the initial state |
| TimelineVisual.Visual.ResetAnimation | src/visual.ts:380-391 | index -1; play or pause lit as autoStart says |
| TimelineVisual.Visual.SetTimeout | src/visual.ts:405 | a new pending timer due `now + delay` (a negative delay as 0) with the next handle, which is returned |
| TimelineVisual.Visual.ClearTimeout | src/visual.ts:435 | the pending timer with that handle, if any, is removed and nothing else changes |
| TimelineVisual.Visual.PushTimer | src/visual.ts:405-411 | a new pending timer, and its handle appended to `timers`; no other field changes |
| TimelineVisual.Visual.CancelTimers | src/visual.ts:434-436 | the `clearTimeout` loop over `timers` removes every pending timer whose handle it holds |
| TimelineVisual.Visual.ControlButton | src/visual.ts:504-513 | previous is dimmed iff the index is `<= 0`, next iff it is `>= N-1`; throws before the first update |
| TimelineVisual.Visual.ApplyFilter | src/visual.ts:515-528 | logs an `In` filter with the current index on the table before the dot and the display name |
| TimelineVisual.Visual.UpdateCaption | src/visual.ts:479-490 | when shown, the caption options become the list `CaptionOptionsMeaning` describes |
| TimelineVisual.Visual.ScheduleRun | src/visual.ts:404-422 | the `setTimeout` loop appends exactly the stamped play schedule to the pending timers and its handles to `timers` |
| TimelineVisual.Visual.PlayAnimation | src/visual.ts:393-427 | the object changes as `Playback.PlayAnimation` says |
| TimelineVisual.Visual.StopAnimation | src/visual.ts:429-446 | the object changes as `Playback.StopAnimation` says |
| TimelineVisual.Visual.StopAtEnd | src/visual.ts:437-445 | after the cancel loop, stop settles on `N-1` as `Playback.StopAtEnd` says, throwing without data |
| TimelineVisual.Visual.PauseAnimation | src/visual.ts:448-458 | the object changes as `Playback.PauseAnimation` says |
| TimelineVisual.Visual.Step | src/visual.ts:460-477 | the object changes as `Playback.Step` says |
| TimelineVisual.Visual.UpdateSelect | src/visual.ts:492-502 | the object changes as `Playback.UpdateSelect` says |
| TimelineVisual.Visual.Update | src/visual.ts:249-362 | the object changes as `Playback.Update` says, including the throw on a colour leaf that is not a fill and the throw at `getBBox` (line 350) whenever the caption is shown |
| TimelineVisual.Visual.Reselect | src/visual.ts:281-305 | the resync of the index, the filter, the host's clear and select of `N-1`, and the buttons, as `Playback.Reselect` says |
| TimelineVisual.Visual.RefreshCaption | src/visual.ts:343-361 | when shown and not playing the caption is rewritten for the current index (throwing outside the data), and a shown caption then throws at `getBBox` on the HTML `<select>` of lines 202-207; when hidden it is cleared and the update completes, as `Playback.RefreshCaption` says |
| TimelineVisual.Visual.StepCallback | src/visual.ts:405-409 | the object changes as the step callback in `Playback` says |
| TimelineVisual.Visual.TerminalCallback | src/visual.ts:414-422 | the object changes as the terminal callback in `Playback` says |
| TimelineVisual.Visual.FireNext | src/visual.ts:405-421 | the earliest timer leaves the pending list, the clock moves to it and its callback runs, as `Playback.Fire` says |
| TimelineVisual.Visual.Handle | src/visual.ts:225-242 | one event is handled as `Playback.Dispatch` says, and the invariant between events is kept |

## Left out

- d3/SVG construction and styling are rendering: the button paths, colours, font size, caption style and the `getBBox`-based view box width (the model keeps only the TypeError that `getBBox` raises).
- `enumerateObjectInstances` only echoes settings to the format pane.
- The host's selection manager and `applyJsonFilter` are foreign calls. They are entries of the `log`, and selection ids are opaque values.
- Real timers and the JavaScript event loop are foreign. They are the abstract pending list; ties between equal due times fire in creation order.
- Playback.ApplyFilter: the bound column's `queryName` is always a string; in the source a column without one makes `applyFilter` throw at `substr`, inside play, `updateSelect` and `update`.
- Playback.Dispatch: the clock moves only when a timer fires, so every click and host update happens at the due time of the last fired timer; interleavings in which a click falls between two due times of overlapping runs are not all represented.
- The DOM reads of `update` and `updateSelect` are parameters. The placeholder option `OKRES`, whose value `+"volvo"` is NaN, is not modelled.
- Numbers are integers. A non-integer or NaN index, or a fractional `timeInterval`, is not modelled. `setTimeout`'s 32-bit delay overflow is not modelled either.
- Settings.IntervalMs: a numeric string persisted as `timeInterval` would multiply as a number in JavaScript. The model treats every non-number except a boolean as delay factor 0.
- Caption.StrLess: the model compares characters, while JavaScript compares UTF-16 code units, so the two differ outside the basic multilingual plane.
- DataViews.JsString: number-to-text covers integers only. Floats and dates are not modelled.
- Filter.ResyncIndex: a json filter whose `values` array is empty gives NaN in the source (`+undefined`). The model takes `N-1` there.
- `endSelected` is undefined in the source until the first update. The model uses -1 for it.
- The filter's `$schema` and `filterType` fields are not modelled. Neither are `applyJsonFilter`'s `"general"`, `"filter"` and merge arguments: they are constants.
- The `options` and `fieldName` fields the source keeps are folded into `view`, or not used.
