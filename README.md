# Load-test dashboard: a verified model

This project models the logic of an Angular dashboard for running load tests.
The model is written in Dafny, and all of it is proved.

- **Control-point calculator.** The calculator generates load curves: a piecewise-linear plan
  of virtual users (VUs) over time. It also rescales a curve to a new duration and cuts it at a
  new end.
- **Graph editor.** The graph editor hit-tests the curve's points under the cursor and snaps the
  cursor to a time step. It drags points between their neighbours, labels the phases of the
  curve and formats the time axis. It is modelled as a class whose mouse handlers return the
  events that the component emits.
- **Test page.** The test page caches per-test-type state in `LoadTestStateService`. It
  regenerates the curve until the user edits it and validates the form. It builds the request
  body and simulates run progress, including the VUs interpolated along the curve.
- **Notification service.** Notifications record each run, map the status words an endpoint
  reports, format run durations and derive a display name from an environment URL.
- **Component catalogue.** Custom cards and preset (group) cards hold tests with selection
  flags. The catalogue service synchronises a group's selection. There are two versions of that
  service and of the card component: `src/` and the later `work/`.
- **Small state holders.** These are the advanced-options row lists, the run settings with their
  defaults, the summary-details flag and the run-status panel.

Conventions used throughout the model:

- Numbers are exact reals.
- JavaScript's `Math.round` is `(x + 0.5).Floor`.
- The integer and real `%` are JavaScript's truncating remainders (`JsMath`).
- Framework signals become class fields.
- Outputs become method results.
- Effects, timers and `setTimeout` callbacks become explicit methods (`AutoUpdateFromConfig`,
  `ProgressTick`, `Tick`).
- Identifiers and clock readings are parameters.

Three scenario methods check whole interactions:

- `LoadGraph.ClickAfterDrag`: the click a browser synthesises after a drag adds no point, and
  the next click does.
- `Ecstasy.EditStopsRegeneration`: an edited curve is no longer regenerated.
- `NotificationService.StartThenFinish`: a run reported completed leaves one settled entry.

Two behaviours of the code that are easy to miss:

- The stored initial soak curve `(0,0),(6,20),(54,20),(60,0)` is not what the calculator
  generates from the soak parameters. The calculator gives `(0,0),(1,20),(59,20),(60,0)`
  (`LoadTestState.InitialSoakCurveIsNotGenerated`).
- On the test page, the progress timer adds 1 to `elapsed` every second. `elapsed` is then
  compared with the duration in minutes. The model keeps this: one tick is one unit of the
  duration.

## Model

| member | source | states |
|---|---|---|
| ControlPointsCalculator.FixedRampTime | src/app/services/control-points-calculator.service.ts:27 | the ramp time is the smaller of 0.1·duration and 1 |
| ControlPointsCalculator.CalculateFixedVus | src/app/services/control-points-calculator.service.ts:26-34 | exactly `(0,0),(r,vus),(d−r,vus),(d,0)` with r the ramp time; for d > 0 it starts at 0, ends at d and is strictly increasing in time |
| ControlPointsCalculator.EffectiveRampUp | src/app/services/control-points-calculator.service.ts:42 | a zero ramp-up becomes 0.2·duration, any other value is kept |
| ControlPointsCalculator.EffectiveRampDown | src/app/services/control-points-calculator.service.ts:43 | a zero ramp-down becomes 0.1·duration, any other value is kept |
| ControlPointsCalculator.CalculateRampingVus | src/app/services/control-points-calculator.service.ts:36-60 | a positive plateau gives the four-point trapezoid whose third time is ramp-up + plateau; otherwise the triangle `(0,0),(d/2,vus),(d,0)` |
| ControlPointsCalculator.CalculateConstantArrival | src/app/services/control-points-calculator.service.ts:62-67 | exactly `(0,vus),(d,vus)`, well formed for d > 0 |
| ControlPointsCalculator.CalculateControlPoints | src/app/services/control-points-calculator.service.ts:10-24 | fixed-vus goes to the fixed curve, ramping-vus to the ramping curve, anything else to constant arrival; 2 to 4 points |
| ControlPointsCalculator.RampingVusWellFormed | src/app/services/control-points-calculator.service.ts:36-60 | for d > 0 and non-negative ramps the ramping curve starts at 0, ends at d and is strictly increasing |
| ControlPointsCalculator.GeneratedCurveWellFormed | src/app/services/control-points-calculator.service.ts:17-67 | every generated curve is well formed for d > 0 and non-negative ramps |
| ControlPointsCalculator.FixedVusExample | src/app/services/control-points-calculator.service.ts:26-34 | 50 VUs over 10 minutes give `(0,0),(1,50),(9,50),(10,0)` |
| ControlPointsCalculator.RampingTriangleExample | src/app/services/control-points-calculator.service.ts:53-59 | ramps longer than the duration give the triangle |
| ControlPointsCalculator.AdjustPointsForNewDuration | src/app/services/control-points-calculator.service.ts:69-95 | empty stays empty; within 0.01 of the old duration the input is returned; otherwise it keeps the length and every VU, sets the first time to 0 and the last to the new duration, and scales interior times by new/old |
| ControlPointsCalculator.AdjustKeepsStrictOrder | src/app/services/control-points-calculator.service.ts:83-94 | rescaling a strictly increasing curve with positive old and new durations keeps it strictly increasing |
| ControlPointsCalculator.AdjustNeighbours | src/app/services/control-points-calculator.service.ts:83-94 | each pair of neighbours stays in strict order after rescaling |
| ControlPointsCalculator.AdjustRoundTrip | src/app/services/control-points-calculator.service.ts:69-95 | rescaling a curve from 0 to d1 to d2 and back to d1 gives the curve back |
| ControlPointsCalculator.KeepUpTo | src/app/services/control-points-calculator.service.ts:100-102 | the kept points are exactly those no later than the duration, each as often as in the input, in their original order |
| ControlPointsCalculator.NormalizeToEnd | src/app/services/control-points-calculator.service.ts:97-111 | empty stays empty; otherwise the non-last points no later than d, then the old last point moved to d |
| ControlPointsCalculator.NormalizeToEndProperties | src/app/services/control-points-calculator.service.ts:97-111 | the result ends at d with the last point's VUs; every earlier point is an original non-last point no later than d, and every such point is kept, as often as it occurs |
| ControlPointsCalculator.NormalizeToEndSubsequence | src/app/services/control-points-calculator.service.ts:100-102 | before the end is moved, the result is an order-preserving subsequence of the input |
| LoadModels.DurationInMinutes | src/app/pages/ecstasy/ecstasy.component.ts:77-81 | hours count 60 minutes each, minutes count as they are; the result is positive (zero) exactly when the duration is |
| LoadModels.StrictlyIncreasingFromNeighbours | src/app/services/control-points-calculator.service.ts:83-94 | strict order of every pair of neighbours gives strict order of the whole curve |
| LoadModels.NeighboursChain | src/app/services/control-points-calculator.service.ts:83-94 | ordered neighbours chain into ordered distant points |
| LoadTestState.InitialState | src/app/services/load-test-state.service.ts:9-68 | each initial state is unedited and not custom, its curve starts at (0,0) and is well formed for its duration in minutes |
| LoadTestState.InitialSoakCurveIsNotGenerated | src/app/services/load-test-state.service.ts:52-67 | the generator would give the soak type `(0,0),(1,20),(59,20),(60,0)` while the stored curve ramps to (6,20) |
| LoadTestState.AllTestTypesComplete | src/app/services/load-test-state.service.ts:89-95 | the list the reset walks names every test type |
| LoadTestState.ApplyUpdate | src/app/services/load-test-state.service.ts:74-79 | each field is the update's value when present, else the old value |
| LoadTestState.ApplyUpdateLaws | src/app/services/load-test-state.service.ts:74-79 | the empty update changes nothing; two updates in a row equal one merged update |
| LoadTestState.ResetFlags | src/app/services/load-test-state.service.ts:92-93 | only the edited and custom flags change, both to false |
| LoadTestState.ResetFlagsIdempotent | src/app/services/load-test-state.service.ts:89-95 | resetting twice equals resetting once |
| LoadTestState.LoadTestStateService.constructor | src/app/services/load-test-state.service.ts:9-68 | every test type holds its initial state |
| LoadTestState.LoadTestStateService.GetState | src/app/services/load-test-state.service.ts:70-72 | the stored state of the type |
| LoadTestState.LoadTestStateService.HasBeenEdited | src/app/services/load-test-state.service.ts:85-87 | the stored edited flag of the type |
| LoadTestState.LoadTestStateService.UpdateState | src/app/services/load-test-state.service.ts:74-79 | only the given type changes, to the update applied to its old state |
| LoadTestState.LoadTestStateService.MarkAsEdited | src/app/services/load-test-state.service.ts:81-83 | only the type's edited flag changes, to true; no edited flag is cleared |
| LoadTestState.LoadTestStateService.ResetAll | src/app/services/load-test-state.service.ts:89-95 | every type has its flags reset and keeps every other field |
| LoadGraph.PlotGeometry | src/app/components/load-graph/load-graph.component.ts:41 | a left padding of 60, a top padding of 40, a right padding of 40 and a bottom padding of 60; the plot has positive size exactly when the canvas is larger than 100 by 100 |
| LoadGraph.PixelRoundTrip | src/app/components/load-graph/load-graph.component.ts:241-245 | mapping a point to pixels and the pixels back to time and VUs gives the point |
| LoadGraph.Dist2 | src/app/components/load-graph/load-graph.component.ts:247 | the squared pixel distance is never negative |
| LoadGraph.HitResultUnique | src/app/components/load-graph/load-graph.component.ts:227-256 | the hit-test result (nearest point strictly within 20 pixels, earliest on ties, none if none) is unique |
| LoadGraph.FindPointAtPosition | src/app/components/load-graph/load-graph.component.ts:227-256 | the loop returns exactly that hit-test result, with the 20-pixel radius of line 43 |
| LoadGraph.TimeStep | src/app/components/load-graph/load-graph.component.ts:291 | 5 above 60 minutes, 1 above 10, else 0.2 |
| LoadGraph.SnapToStep | src/app/components/load-graph/load-graph.component.ts:292 | a multiple of the step within half a step of the time, never negative for a non-negative time |
| LoadGraph.ClampedTime | src/app/components/load-graph/load-graph.component.ts:279-282 | clamped to [0, duration], unchanged inside it |
| LoadGraph.ClampedVus | src/app/components/load-graph/load-graph.component.ts:283-289 | clamped to [0, maxVUs], unchanged inside it |
| LoadGraph.CursorPoint | src/app/components/load-graph/load-graph.component.ts:279-295 | a non-negative time on the step within half a step of the clamped time, and a whole non-negative VU count within 0.5 of the clamped VUs |
| LoadGraph.PreviewPoint | src/app/components/load-graph/load-graph.component.ts:258-296 | a preview exists exactly in edit mode with the cursor inside the plot, and is the snapped cursor point |
| LoadGraph.AddPointAtPosition | src/app/components/load-graph/load-graph.component.ts:337-368 | a point is emitted exactly in edit mode, the snapped cursor point |
| LoadGraph.UpdatePointPosition | src/app/components/load-graph/load-graph.component.ts:298-335 | the snapped VUs are kept; the first point goes to time 0, the last to the duration; an interior point between its neighbours takes the cursor's time, one at or before the previous point goes one time step after it (or one step before the next when they are closer than a step), one at or after the next goes one step before it |
| LoadGraph.UpdateStaysBetween | src/app/components/load-graph/load-graph.component.ts:326-332 | with neighbours at least two steps apart, the dragged interior point lands strictly between them |
| LoadGraph.UpdateKeepsFreeCursor | src/app/components/load-graph/load-graph.component.ts:326-332 | a cursor already strictly between the neighbours is used as is |
| LoadGraph.UpdateNarrowGap | src/app/components/load-graph/load-graph.component.ts:326-332 | with neighbours 0.2 apart and a 0.2 step, the dragged point lands on its left neighbour's time |
| LoadGraph.PhaseKindOf | src/app/components/load-graph/load-graph.component.ts:443-457 | steady exactly when the VU change is below 1 in size, ramp-up exactly when it is at least 1, ramp-down exactly when it is at most −1 |
| LoadGraph.ClassifyPhases | src/app/components/load-graph/load-graph.component.ts:436-460 | n ≥ 2 points give n−1 phases, phase i spanning points i to i+1 with its kind; fewer points give none |
| LoadGraph.MinutesLabelReadsBack | src/app/components/load-graph/load-graph.component.ts:682 | a minutes label reads back as the rounded time followed by `m` |
| LoadGraph.FormatTimeLabel | src/app/components/load-graph/load-graph.component.ts:674-682 | in minutes, the rounded time and `m`; in hours, for a non-negative time, the whole hours h (h·60 ≤ t < h·60 + 60) and the remaining minutes rounded, which lie in [0, 60] |
| LoadGraph.FormatTimeLabelSixtyMinutes | src/app/components/load-graph/load-graph.component.ts:676-680 | as written, 119.5 minutes in hours mode is labelled `1h 60m` |
| LoadGraph.FormatTimeLabelCorrectedDistinct | src/app/components/load-graph/load-graph.component.ts:676-680 | rounded first, the minutes are below 60, recompose the rounded time, and different rounded times get different labels |
| LoadGraph.HoursLabelInjective | src/app/components/load-graph/load-graph.component.ts:679-680 | hour labels are equal only for equal hours and minutes |
| LoadGraph.LoadGraphComponent.constructor | src/app/components/load-graph/load-graph.component.ts:27-49 | the inputs as given, the plot geometry from the canvas size, no drag, hover or preview, no pending reset |
| LoadGraph.LoadGraphComponent.SetInputs | src/app/components/load-graph/load-graph.component.ts:27-30 | the new inputs, nothing else |
| LoadGraph.LoadGraphComponent.HandleMouseMove | src/app/components/load-graph/load-graph.component.ts:120-153 | records the position; while dragging in edit mode it sets the dragging flag and emits the dragged point's update; otherwise it sets the hovered point and the preview (none on a hit or outside edit mode) |
| LoadGraph.LoadGraphComponent.HandleMouseDown | src/app/components/load-graph/load-graph.component.ts:155-172 | in edit mode on a hit it starts dragging that point, clears the dragging flag and the preview; otherwise nothing changes |
| LoadGraph.LoadGraphComponent.HandleMouseUp | src/app/components/load-graph/load-graph.component.ts:174-185 | ends the drag and schedules one reset of the dragging flag |
| LoadGraph.LoadGraphComponent.Tick | src/app/components/load-graph/load-graph.component.ts:182-184 | the scheduled callback clears the dragging flag |
| LoadGraph.LoadGraphComponent.HandleMouseLeave | src/app/components/load-graph/load-graph.component.ts:187-192 | clears the hovered point, the drag, the preview and the position |
| LoadGraph.LoadGraphComponent.HandleClick | src/app/components/load-graph/load-graph.component.ts:194-208 | a point is added exactly in edit mode, without a drag flag and off every point; it is the snapped cursor point |
| LoadGraph.LoadGraphComponent.HandleRightClick | src/app/components/load-graph/load-graph.component.ts:210-225 | in edit mode on a hit it emits the deletion of the hit point; otherwise nothing |
| Ecstasy.MaxVus | src/app/pages/ecstasy/ecstasy.component.ts:72-75 | at least 1, the configured VUs and every point's VUs, and equal to one of them |
| Ecstasy.EcstasyComponent.TotalDurationInMinutes | src/app/pages/ecstasy/ecstasy.component.ts:77-81 | the duration itself in minutes, 60 times it in hours; positive exactly when the duration is |
| Ecstasy.EcstasyComponent.RegenerationAllowed | src/app/pages/ecstasy/ecstasy.component.ts:141 | the curve is regenerated exactly when not in custom mode and the stored state of the current test type is not marked edited |
| Ecstasy.IsConfigurationValid | src/app/pages/ecstasy/ecstasy.component.ts:83-90 | valid exactly with a component, a URL with a non-white-space character, positive VUs and positive duration |
| Ecstasy.EcstasyComponent.CanRunTest | src/app/pages/ecstasy/ecstasy.component.ts:92-94 | a valid configuration and no run in progress |
| Ecstasy.FirstLater | src/app/pages/ecstasy/ecstasy.component.ts:245-246 | the first index whose time is later, or the length; all earlier times are no later |
| Ecstasy.InsertPoint | src/app/pages/ecstasy/ecstasy.component.ts:243-258 | refused when a neighbour at the insertion place has the same time; otherwise the point is inserted there |
| Ecstasy.InsertKeepsStrictOrder | src/app/pages/ecstasy/ecstasy.component.ts:243-258 | an accepted insertion keeps a strictly increasing curve strictly increasing and one point longer |
| Ecstasy.InsertRejectsIffTimeTaken | src/app/pages/ecstasy/ecstasy.component.ts:248-253 | on a strictly increasing curve the insertion is refused exactly when some point has that time |
| Ecstasy.InsertKeepsEndpoints | src/app/pages/ecstasy/ecstasy.component.ts:243-258 | a point inside the curve's time span keeps the first and last points |
| Ecstasy.ReplacePoint | src/app/pages/ecstasy/ecstasy.component.ts:261-262 | an index inside the list replaces just that entry; the index past the end appends; a negative index leaves the entries |
| Ecstasy.ReplaceBetweenKeepsOrder | src/app/pages/ecstasy/ecstasy.component.ts:260-265 | a point moved strictly between its neighbours keeps the curve strictly increasing |
| Ecstasy.DeletePoint | src/app/pages/ecstasy/ecstasy.component.ts:267-273 | two points or fewer are kept whole; otherwise exactly the indexed entry goes |
| Ecstasy.DeleteKeepsCurve | src/app/pages/ecstasy/ecstasy.component.ts:267-273 | at least two points remain, and strict order is kept |
| Ecstasy.InterpolateVus | src/app/pages/ecstasy/ecstasy.component.ts:352-364 | the loop's VUs are the rounded interpolation on the first segment containing the time, 0 when none does |
| Ecstasy.ReadingAtControlPoint | src/app/pages/ecstasy/ecstasy.component.ts:355-364 | at a control point's time of a strictly increasing curve the reading is that point's rounded VUs |
| Ecstasy.ReadingOutsideCurve | src/app/pages/ecstasy/ecstasy.component.ts:353-364 | before the first or after the last point the reading is 0 |
| Ecstasy.Progress | src/app/pages/ecstasy/ecstasy.component.ts:350 | at most 100; for a positive total, non-negative and 100 exactly once the elapsed count reaches the total; 100 for a zero total |
| Ecstasy.OptionalRamp | src/app/pages/ecstasy/ecstasy.component.ts:314-315 | a zero ramp is left out of the request, any other is sent |
| Ecstasy.EcstasyComponent.constructor | src/app/pages/ecstasy/ecstasy.component.ts:41-68 | the page's initial signal values |
| Ecstasy.EcstasyComponent.AutoUpdateFromConfig | src/app/pages/ecstasy/ecstasy.component.ts:134-144 | the curve is regenerated (by the helper at lines 160-170) exactly when not in custom mode and the type is unedited; then it is well formed for a positive duration |
| Ecstasy.EcstasyComponent.AdjustControlPointsForNewDuration | src/app/pages/ecstasy/ecstasy.component.ts:172-185 | the curve becomes the calculator's rescaling to the current duration |
| Ecstasy.EcstasyComponent.LoadTestTypeState | src/app/pages/ecstasy/ecstasy.component.ts:147-158 | every configuration field and the curve are copied from the stored state |
| Ecstasy.EcstasyComponent.CurrentUpdate | src/app/pages/ecstasy/ecstasy.component.ts:115-125 | the saved update carries the stored edited flag |
| Ecstasy.EcstasyComponent.SaveState | src/app/pages/ecstasy/ecstasy.component.ts:113-126 | the current type's state becomes the page's fields; no edited flag changes |
| Ecstasy.EcstasyComponent.OnDurationUnitChanged | src/app/pages/ecstasy/ecstasy.component.ts:209-219 | the same unit changes nothing; a new unit truncates the curve at the new duration in minutes |
| Ecstasy.EcstasyComponent.ToggleEditMode | src/app/pages/ecstasy/ecstasy.component.ts:234-236 | custom mode flips |
| Ecstasy.EcstasyComponent.ToggleK6Phases | src/app/pages/ecstasy/ecstasy.component.ts:238-240 | the phase overlay flag flips |
| Ecstasy.EcstasyComponent.OnPointAdded | src/app/pages/ecstasy/ecstasy.component.ts:243-258 | a refused insertion changes nothing; an accepted one sets the curve and marks only the current type edited |
| Ecstasy.EcstasyComponent.OnPointUpdated | src/app/pages/ecstasy/ecstasy.component.ts:260-265 | the curve becomes the replacement and the current type is marked edited |
| Ecstasy.EcstasyComponent.OnPointDeleted | src/app/pages/ecstasy/ecstasy.component.ts:267-273 | two points or fewer change nothing; otherwise the point goes and the type is marked edited |
| Ecstasy.EcstasyComponent.BuildConfiguration | src/app/pages/ecstasy/ecstasy.component.ts:306-320 | the component, URL, test type, VUs, duration, unit and scenario are sent as configured; the rows sent are exactly the complete rows, each as often as entered, in order; zero ramps are left out; the curve is sent as is |
| Ecstasy.EcstasyComponent.RunTest | src/app/pages/ecstasy/ecstasy.component.ts:303-325 | a request is made exactly when a run may start; the status becomes running at the given time |
| Ecstasy.EcstasyComponent.OnRunStarted | src/app/pages/ecstasy/ecstasy.component.ts:328-335 | keeps running with the returned test id and starts tracking from 0 |
| Ecstasy.EcstasyComponent.OnRunFailed | src/app/pages/ecstasy/ecstasy.component.ts:337-340 | the status is just failed |
| Ecstasy.EcstasyComponent.StartProgressTracking | src/app/pages/ecstasy/ecstasy.component.ts:344-348 | tracking starts at 0 with the total duration captured once |
| Ecstasy.EcstasyComponent.ProgressTick | src/app/pages/ecstasy/ecstasy.component.ts:348-376 | the count grows by one; elapsed time, progress and interpolated VUs are reported, and the run completes once the total is reached |
| Ecstasy.EcstasyComponent.CompleteTest | src/app/pages/ecstasy/ecstasy.component.ts:379-391 | tracking stops; completed with progress 100 and the configured VUs |
| Ecstasy.EcstasyComponent.ViewResults | src/app/pages/ecstasy/ecstasy.component.ts:393-398 | the results frame opens only for a non-empty test id |
| Ecstasy.EcstasyComponent.CloseResultsIframe | src/app/pages/ecstasy/ecstasy.component.ts:400-402 | the frame is closed |
| Ecstasy.EcstasyComponent.ResetConfiguration | src/app/pages/ecstasy/ecstasy.component.ts:410-420 | the form, the rows and the status are back to their defaults, every type's flags are reset, and the load type's stored configuration is reloaded |
| Ecstasy.ResultsUrl | src/app/pages/ecstasy/ecstasy.component.ts:404-408 | the dashboard base followed by the test id |
| NotificationService.MapStatus | src/app/services/notification.service.ts:156-173 | done, running or failed exactly for their three lower-cased words each; inactive otherwise |
| NotificationService.MapStatusCaseInsensitive | src/app/services/notification.service.ts:157 | lower-casing the word first changes nothing |
| NotificationService.MapStatusExample | src/app/services/notification.service.ts:157-161 | `Done` maps to done |
| NotificationService.CalculateDuration | src/app/services/notification.service.ts:175-184 | for a non-negative difference, `Mm Ss` from one minute on, else `Ss`, with whole minutes and seconds below 60 |
| NotificationService.DurationTextInjective | src/app/services/notification.service.ts:180-183 | duration texts are equal only for equal minutes and seconds |
| NotificationService.CalculateDurationDistinct | src/app/services/notification.service.ts:175-184 | equal texts mean the same number of whole seconds elapsed |
| NotificationService.StripScheme | src/app/services/notification.service.ts:149 | exactly a leading `https://`, else a leading `http://`, is removed; any other URL is kept whole |
| NotificationService.CutAtDot | src/app/services/notification.service.ts:150 | the prefix before the first `.` after which no line ends, or everything |
| NotificationService.SeparatorsToSpaces | src/app/services/notification.service.ts:151 | every `_` and `-` becomes a space, other characters are kept |
| NotificationService.CapitalizeFirst | src/app/services/notification.service.ts:153 | the first character upper-cased, the rest kept |
| NotificationService.GetDisplayName | src/app/services/notification.service.ts:141-154 | `Default Environment` for an empty URL and for `noderprod`; otherwise the cleaned name |
| NotificationService.DisplayNameShape | src/app/services/notification.service.ts:148-153 | no `_` or `-`, no longer than the URL, and no `.` when the URL has no line break |
| NotificationService.DisplayNameExample | src/app/services/notification.service.ts:141-154 | `http://a_b.c` is shown as `A b` |
| NotificationService.FindByUrl | src/app/services/notification.service.ts:71 | the first entry for the URL, or none exactly when no entry has it |
| NotificationService.NotificationService.constructor | src/app/services/notification.service.ts:25-27 | no entries, closed, nothing new |
| NotificationService.NotificationService.NotificationCount | src/app/services/notification.service.ts:34 | the number of entries |
| NotificationService.NotificationService.RunningCount | src/app/services/notification.service.ts:35-37 | the number of running entries, counting each entry in the list |
| NotificationService.NotificationService.ActiveNotifications | src/app/services/notification.service.ts:38-40 | exactly the entries that are not inactive, each as often as in the list, in order |
| NotificationService.NotificationService.AddRunNotification | src/app/services/notification.service.ts:47-66 | appends one running entry with the display name and returns its id; marks something new |
| NotificationService.NotificationService.UpdateRunStatus | src/app/services/notification.service.ts:69-93 | for a known URL only its first entry changes (mapped status, end time, duration) and it returns true; otherwise an inactive error is appended and it returns false |
| NotificationService.NotificationService.AddInactiveError | src/app/services/notification.service.ts:186-203 | appends the inactive `Unknown: <url>` entry with duration `0s` |
| NotificationService.NotificationService.HandleStatusUpdate | src/app/services/notification.service.ts:206-208 | an entry with the URL gets the mapped status, the end time and its duration text, nothing else changes; an unknown URL appends an inactive error entry; the new-notification flag is set and the panel stays as it was |
| NotificationService.NotificationService.TogglePanel | src/app/services/notification.service.ts:96-101 | the panel flips; opening it clears the new flag |
| NotificationService.NotificationService.ClosePanel | src/app/services/notification.service.ts:104-106 | the panel is closed, nothing else changes |
| NotificationService.NotificationService.ClearAll | src/app/services/notification.service.ts:109-112 | no entries and nothing new |
| NotificationService.NotificationService.RemoveNotification | src/app/services/notification.service.ts:115-119 | exactly the entries with other ids remain, each as often as before, in order |
| NotificationService.NotificationService.ClearCompleted | src/app/services/notification.service.ts:122-126 | exactly the running entries remain, each as often as before, in order |
| ComponentModels.TestsSetTo | src/app/services/component-data.service.ts:171 | every test selected as given, nothing else changed |
| ComponentModels.SelectAllTests | src/app/services/component-data.service.ts:171 | the loop sets every test's flag to the state |
| ComponentModels.WithSelection | src/app/services/component-data.service.ts:170-171 | the card and every one of its tests at the state, nothing else changed |
| ComponentModels.SelectedCountBounds | work/src/app/components/component-card/component-card.component.ts:54-55 | the selected count equals the length exactly when all are selected, and is positive exactly when one is |
| ComponentDataStore.SyncedTableEffect | src/app/services/component-data.service.ts:166-173 | matching custom cards end with the card and all tests at the state; presets and unmatched cards are unchanged; only selection flags move and the list keeps its length and order |
| ComponentDataStore.SyncIdempotent | src/app/services/component-data.service.ts:166-173 | synchronising twice equals synchronising once |
| ComponentDataStore.SyncEmptyGroup | src/app/services/component-data.service.ts:168 | an empty group changes nothing |
| ComponentDataStore.ComponentDataService.constructor | src/app/services/component-data.service.ts:9 | the table holds the given cards |
| ComponentDataStore.ComponentDataService.GetComponents | src/app/services/component-data.service.ts:161-163 | hands out the table itself |
| ComponentDataStore.ComponentDataService.SyncGroupSelection | src/app/services/component-data.service.ts:166-173 | the table becomes its synchronised version |
| WorkComponentDataStore.TestsInGroupSetTo | work/src/app/services/component-data.service.ts:31-35 | the tests whose test groups meet the group take the state, the others are kept |
| WorkComponentDataStore.SelectTestsInGroup | work/src/app/services/component-data.service.ts:31-35 | the loop computes exactly that |
| WorkComponentDataStore.WorkSyncCardEffect | work/src/app/services/component-data.service.ts:18-37 | the first pass as before; every test of a custom card whose test group meets the group ends at the state; presets and the remaining tests of unmatched cards are unchanged; the card's own flag is the first pass's |
| WorkComponentDataStore.SecondPassKeepsCardFlag | work/src/app/services/component-data.service.ts:28-36 | the second pass never changes a card's own flag |
| WorkComponentDataStore.WorkSyncIdempotent | work/src/app/services/component-data.service.ts:18-37 | running both passes twice equals running them once |
| WorkComponentDataStore.SyncGroupSelection | work/src/app/services/component-data.service.ts:18-37 | the handed table becomes its two-pass synchronised version |
| ComponentCard.FlipTest | src/app/components/component-card/component-card.component.ts:35 | only that test's flag flips |
| ComponentCard.EveryTestSelected | src/app/components/component-card/component-card.component.ts:36 | true exactly when every test is selected |
| ComponentCard.ComponentCardComponent.ToggleSelection | src/app/components/component-card/component-card.component.ts:19-32 | the card's flag flips; as a custom card its tests follow it; as a preset card the group is synchronised through the service, and a preset card's own tests stay |
| ComponentCard.ComponentCardComponent.ToggleTestSelection | src/app/components/component-card/component-card.component.ts:34-37 | one test flips, and the card is selected exactly when all its tests are |
| ComponentCard.ComponentCardComponent.ToggleExpand | src/app/components/component-card/component-card.component.ts:39-41 | only the card's expanded flag flips |
| WorkComponentCard.AllTestsSelected | work/src/app/components/component-card/component-card.component.ts:45-49 | with tests, exactly when the selected count is the length; without tests, the card's own flag |
| WorkComponentCard.PartialSelected | work/src/app/components/component-card/component-card.component.ts:52-56 | exactly when some test is selected and some is not; false without tests |
| WorkComponentCard.NeverAllAndPartial | work/src/app/components/component-card/component-card.component.ts:45-56 | "all" and "some" are never shown together |
| WorkComponentCard.ComponentCardComponent.ToggleSelection | work/src/app/components/component-card/component-card.component.ts:20-33 | the card's flag flips; as a custom card its tests follow it; as a preset card the handed table gets the two-pass synchronisation |
| WorkComponentCard.ComponentCardComponent.ToggleTestSelection | work/src/app/components/component-card/component-card.component.ts:35-38 | one test flips, and the card's flag then agrees with the "all selected" getter and is never set while "some" shows |
| WorkComponentCard.ComponentCardComponent.ToggleExpand | work/src/app/components/component-card/component-card.component.ts:40-42 | only the card's expanded flag flips |
| AdvancedOptions.AdvancedOptionsComponent.constructor | src/app/components/advanced-options/advanced-options.component.ts:14-17 | hidden, and one empty row in each list |
| AdvancedOptions.AdvancedOptionsComponent.ToggleAdvanced | src/app/components/advanced-options/advanced-options.component.ts:23-25 | the flag flips |
| AdvancedOptions.AdvancedOptionsComponent.AddHeader | src/app/components/advanced-options/advanced-options.component.ts:28-34 | one empty row appended, earlier rows kept, the new list emitted |
| AdvancedOptions.AdvancedOptionsComponent.RemoveHeader | src/app/components/advanced-options/advanced-options.component.ts:36-42 | exactly row i removed when in range, nothing otherwise; the new list emitted |
| AdvancedOptions.AdvancedOptionsComponent.UpdateHeaderKey | src/app/components/advanced-options/advanced-options.component.ts:44-51 | row i gets the key and keeps its value, other rows and the length are kept; the new list emitted |
| AdvancedOptions.AdvancedOptionsComponent.UpdateHeaderValue | src/app/components/advanced-options/advanced-options.component.ts:53-60 | row i gets the value and keeps its key, other rows and the length are kept; the new list emitted |
| AdvancedOptions.AdvancedOptionsComponent.AddThreshold | src/app/components/advanced-options/advanced-options.component.ts:63-69 | one empty threshold appended, the new list emitted |
| AdvancedOptions.AdvancedOptionsComponent.RemoveThreshold | src/app/components/advanced-options/advanced-options.component.ts:71-77 | exactly threshold i removed when in range; the new list emitted |
| AdvancedOptions.AdvancedOptionsComponent.UpdateThresholdMetric | src/app/components/advanced-options/advanced-options.component.ts:79-86 | threshold i gets the metric and keeps its condition; the new list emitted |
| AdvancedOptions.AdvancedOptionsComponent.UpdateThresholdCondition | src/app/components/advanced-options/advanced-options.component.ts:88-95 | threshold i gets the condition and keeps its metric; the new list emitted |
| AdvancedOptions.AdvancedOptionsComponent.AddEnvironmentVariable | src/app/components/advanced-options/advanced-options.component.ts:98-104 | one empty variable appended, the new list emitted |
| AdvancedOptions.AdvancedOptionsComponent.RemoveEnvironmentVariable | src/app/components/advanced-options/advanced-options.component.ts:106-112 | exactly variable i removed when in range; the new list emitted |
| AdvancedOptions.AdvancedOptionsComponent.UpdateEnvVarKey | src/app/components/advanced-options/advanced-options.component.ts:114-121 | variable i gets the key and keeps its value; the new list emitted |
| AdvancedOptions.AdvancedOptionsComponent.UpdateEnvVarValue | src/app/components/advanced-options/advanced-options.component.ts:123-130 | variable i gets the value and keeps its key; the new list emitted |
| AdvancedOptions.AddThenRemoveLast | src/app/components/advanced-options/advanced-options.component.ts:28-42 | adding a row and removing the last row gives the list back |
| AdvancedOptions.ReplaceRowLaws | src/app/components/advanced-options/advanced-options.component.ts:44-60 | writing a row back unchanged is a no-op; of two writes to a row the later wins |
| TestConfigurationManager.TestConfigurationManagerService.constructor | src/app/services/test-configuration-manager.service.ts:9-11 | all three settings empty |
| TestConfigurationManager.TestConfigurationManagerService.CurrentConfiguration | src/app/services/test-configuration-manager.service.ts:19-23 | mirrors the three current settings |
| TestConfigurationManager.TestConfigurationManagerService.UpdateSearchTerm | src/app/services/test-configuration-manager.service.ts:25-27 | sets only the search term |
| TestConfigurationManager.TestConfigurationManagerService.UpdateAtlasUrl | src/app/services/test-configuration-manager.service.ts:29-31 | sets only the Atlas URL |
| TestConfigurationManager.TestConfigurationManagerService.UpdateAutomationBranch | src/app/services/test-configuration-manager.service.ts:33-35 | sets only the branch |
| TestConfigurationManager.TestConfigurationManagerService.AtlasUrlOrDefault | src/app/services/test-configuration-manager.service.ts:37-39 | `noderprod` for an empty URL, else the URL; never empty |
| TestConfigurationManager.TestConfigurationManagerService.AutomationBranchOrDefault | src/app/services/test-configuration-manager.service.ts:41-43 | `main` for an empty branch, else the branch; never empty |
| TestConfigurationManager.TestConfigurationManagerService.Reset | src/app/services/test-configuration-manager.service.ts:45-49 | all three settings empty, so both defaults apply |
| UiStateManager.UiStateManagerService.constructor | src/app/services/ui-state-manager.service.ts:8 | details hidden |
| UiStateManager.UiStateManagerService.ToggleSummaryDetails | src/app/services/ui-state-manager.service.ts:12-16 | the flag flips and the new value is returned |
| UiStateManager.UiStateManagerService.SetSummaryDetailsVisibility | src/app/services/ui-state-manager.service.ts:18-20 | the flag is exactly the given value |
| UiStateManager.UiStateManagerService.Reset | src/app/services/ui-state-manager.service.ts:22-24 | details hidden |
| UiStateManager.ToggleTwice | src/app/services/ui-state-manager.service.ts:12-16 | two toggles restore the flag and return opposite values |
| ExecutionStatusView.StatusClass | src/app/components/execution-status/execution-status.component.ts:19 | `status-` followed by the state's name |
| ExecutionStatusView.StatusClassInjective | src/app/components/execution-status/execution-status.component.ts:19 | different states get different classes |
| ExecutionStatusView.ProgressPercentage | src/app/components/execution-status/execution-status.component.ts:21-23 | 0 without a progress; otherwise the progress rounded, within half a percent, and in [0, 100] for a progress in it |
| ExecutionStatusView.ElapsedLabel | src/app/components/execution-status/execution-status.component.ts:27-33 | the text ends in `m`; from 60 minutes on it is the whole hours, `h `, the remaining minutes and `m`; below an hour it is the minutes and `m` |
| ExecutionStatusView.ElapsedTimeFormatted | src/app/components/execution-status/execution-status.component.ts:25-34 | a missing elapsed time is shown as `0m`; a present one as its label |
| ExecutionStatusView.ElapsedSplit | src/app/components/execution-status/execution-status.component.ts:26-28 | for a non-negative elapsed time, hours·60 + minutes recompose it and the minutes are below 60 |
| ExecutionStatusView.ElapsedLabelInjective | src/app/components/execution-status/execution-status.component.ts:25-34 | different non-negative elapsed times never get the same text |
| Lists.Filter | src/app/services/notification.service.ts:117 | the kept entries are exactly those the test accepts, each as often as in the input, in their original order; all kept when all pass |
| Lists.RemoveIndex | src/app/components/advanced-options/advanced-options.component.ts:38 | for an index in range, the entries before it stay, the ones after it move down by one; an index out of range changes nothing |

## Left out

- Canvas drawing, the DOM, templates, styles and the tooltip are not modelled: they only render the state that the model keeps.
- Angular signals, `computed`, `effect` and the scheduler are not modelled: each effect becomes an explicit method and each computed value a function, so the order in which the framework runs them is outside the model.
- `window.setInterval` and `setTimeout` become the explicit `ProgressTick` and `Tick` methods; the one-second period is not modelled.
- Ecstasy.EcstasyComponent.StartProgressTracking: calling it twice starts a second interval in the page without clearing the first; the model keeps a single tracking flag, so the leaked timer is not represented.
- HTTP: the request to start a run is the configuration `RunTest` returns; its reply or failure is the caller's call to `OnRunStarted` or `OnRunFailed`. The HTTP `getComponents` of the later catalogue service is not modelled; the caller hands the table in.
- Identifier generation and `new Date()` are parameters (`id`, `now`, `t0`, `t1`); times are whole milliseconds.
- The toast manager, `console` logging, `saveAsPreset`, `ngOnDestroy`, `onViewResults` and the Angular URL sanitizer in `getResultsUrl` are left out; none of them changes state the model keeps.
- Plain setters of the test page (`setVirtualUsers` and the like) are not modelled: each sets one field.
- `formatControlPointTime` in the test page is the same code as the graph's `formatTimeLabel` and is modelled once, as `LoadGraph.FormatTimeLabel`.
- The mock contents of the catalogue table are not reproduced; the table is a constructor argument.
- A card's `data` object is modelled as one entry of the array it belongs to; the same object reachable from two different arrays is not modelled.
- Floating point, NaN and infinities are not modelled beyond the one NaN case of the VU reading on a zero-width segment; numbers are exact reals, so the 0.2-step snapping and the 0.01 tolerance have no rounding error.
- Case mapping covers ASCII letters only. This is exact for the status words and the display names written in ASCII.
- `elapsedTime` is a whole number, as the page produces it.
- ControlPointsCalculator.AdjustPointsForNewDuration: requires the old last time to be non-zero when there are interior points and the new duration differs from it by at least 0.01. In that case the source divides by zero and produces NaN times, which the exact-real model does not represent; within 0.01 the curve is returned unchanged, as in the source.
- Ecstasy.EcstasyComponent.AdjustControlPointsForNewDuration: the same requirement, with the page's duration in minutes as the new duration, for the same reason.
- NotificationService.NotificationService.UpdateRunStatus: the source copies the list shallowly and writes the new status, end time and duration into the shared entry object, so a holder of the previous list sees the change too; the model replaces the entry by a new value, and this aliasing is not modelled.
- Ecstasy.ReplacePoint: requires the index to be at most the length. A larger index makes a sparse array with holes, which a sequence cannot hold.
- Ecstasy.EcstasyComponent.OnPointUpdated: the same requirement, for the same reason.
- AdvancedOptions.AdvancedOptionsComponent.UpdateHeaderKey: requires the index to be below the length. At or past the end the page spreads `undefined` into a new row, which a typed row cannot hold. A negative index is modelled and changes nothing.
- AdvancedOptions.AdvancedOptionsComponent.UpdateHeaderValue: the same requirement, for the same reason.
- AdvancedOptions.AdvancedOptionsComponent.UpdateThresholdMetric: the same requirement, for the same reason.
- AdvancedOptions.AdvancedOptionsComponent.UpdateThresholdCondition: the same requirement, for the same reason.
- AdvancedOptions.AdvancedOptionsComponent.UpdateEnvVarKey: the same requirement, for the same reason.
- AdvancedOptions.AdvancedOptionsComponent.UpdateEnvVarValue: the same requirement, for the same reason.
- LoadGraph.LoadGraphComponent.constructor: requires a canvas larger than 100 by 100 pixels, so that the plot has a positive size. A smaller canvas makes the pixel-to-time mapping divide by zero or negate.
- The URL validation of the configuration form, the component list, the navbar and the other components are not part of this model.

## Findings

| source | as written | input that shows it | evidently intended | confidence | as-written member | corrected member |
|---|---|---|---|---|---|---|
| src/app/components/load-graph/load-graph.component.ts:676-680 | the hours and the minutes are computed separately, and the minutes are rounded after the remainder is taken | 119.5 minutes in hours mode is labelled `1h 60m` | round the time first, then split it, giving `2h` | high, not executed | LoadGraph.FormatTimeLabelSixtyMinutes | LoadGraph.FormatTimeLabelCorrectedDistinct |
| src/app/pages/ecstasy/ecstasy.component.ts:292-296 | the same split, then rounding, in `formatControlPointTime` | 119.5 minutes in hours mode is shown as `1h 60m` | round the time first, then split it | high, not executed | LoadGraph.FormatTimeLabelSixtyMinutes | LoadGraph.FormatTimeLabelCorrectedDistinct |
