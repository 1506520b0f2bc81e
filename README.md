# MobileInputModule gesture classifier — a Dafny model

MobileInputModule is a Unity package. Once per frame, `MobileInput.Process` does three things:

- it samples the device acceleration and the touches on the screen;
- it keeps a time-stamped trace (`TouchHistory`) for every finger it tracks;
- it classifies what it sees into taps, swipes, pinches and tilts, which it reports through static events.

A `MobileInputSettingsData` asset holds the thresholds. `MobileInputHelper` reads direction, magnitude and focus point off the event arguments. The `MobileInputReaction` component and its editor inspector keep, per reaction field, whether it uses action triggers and argument triggers.

The model has one module per source unit:

| file | module | models |
|---|---|---|
| `geometry.dfy` | `Geometry` | `Vector2` as a pair of reals; the length as a parameter constrained to be a norm |
| `events.dfy`, `engine.dfy`, `optional.dfy` | `Events`, `Engine`, `Optional` | the event arguments, the static events as values, the touches, the screen, the exceptions |
| `touch_history.dfy` | `Traces` | `TouchHistory.trace`, a `SortedDictionary<float, Vector2>`, as a sequence of samples in strictly increasing time order |
| `settings.dfy` | `Settings` | `MobileInputSettingsData` |
| `helper.dfy` | `Helper` | `MobileInputHelper` |
| `tap.dfy` | `Tap` | `TapEvaluator` |
| `swipe.dfy` | `Swipe` | `SwipeEvaluator` and `SwipeEventDetector` |
| `pinch.dfy` | `Pinch` | `PinchEvaluator` |
| `tilt.dfy` | `Tilt` | `TiltEvaluator`, a class over the tracked tilt set `previousTilts` |
| `mobile_input.dfy` | `Input` | `MobileInput`, a class over the static touch and acceleration histories |
| `reaction.dfy` | `Reaction` | `MobileInputReaction.Setup` and the usage containers of `MobileInputReactionInspector` |

Conventions of the model:

- **Static events.** Each static `Action` invocation becomes an `Event` value appended to the returned sequence, in invocation order.
- **Exceptions.** An exception becomes an `InputError` value. The state changes made before the throw are kept, as the static fields keep them.
- **Loops.** Every loop of the source is a `while` or `for` loop in a method. Each method is proved against a specification function, for example `TrackAll`, `CheckAll`, `Rebuilt` or `FromIndexList`, or against a specification predicate, such as `EndedExactly` for `HandleEndedTilts` and `ListsUsed` for `CollectUsedIndices`.
- **Unordered containers.** The loop over `previousTilts` in `HandleEndedTilts` and the loops over a `Dictionary` in `MobileInputReaction` and its inspector pick their next element with `:|`, because the source does not fix that order. Their contracts therefore hold for every enumeration order. The fresh `HashSet` of `CalculateTiltDirections` is the exception (see "## Left out").

## Model

| member | source | states |
|---|---|---|
| Traces.Insert | MobileInputModule/Assets/Scripts/MobileInput/MobileInput.cs:257 | `SortedDictionary.Add` fails exactly when the time stamp is already a key. Otherwise the trace stays sorted, gains exactly that sample (as a multiset) and that key, and a sample earlier than all others goes to the front. |
| Traces.InsertAfterAll | MobileInputModule/Assets/Scripts/MobileInput/MobileInput.cs:251-260 | When the clock has moved past every sample, Add appends the new sample at the end. |
| Traces.InsertIntoSingle | MobileInputModule/Assets/Scripts/MobileInput/MobileInputTrigger/Swipe/SwipeEventDetector.cs:47-48 | A second, different key put into a one-sample trace orders the two samples by key. |
| Traces.Remove | MobileInputModule/Assets/Scripts/MobileInput/MobileInputTrigger/Swipe/SwipeEventDetector.cs:44-45 | Remove drops exactly the samples with that key and keeps the trace sorted. A missing key leaves the trace unchanged; a present one shortens it by one. |
| Traces.ContainsKey | MobileInputModule/Assets/Scripts/MobileInput/MobileInputTrigger/Swipe/SwipeEventDetector.cs:44 | True exactly when the time is a key of the trace. |
| Traces.NewTouchHistory | MobileInputModule/Assets/Scripts/MobileInput/MobileInput.cs:37-40 | A new history holds only the begin sample, which is both its first and its last sample. |
| Settings.Overridden | MobileInputModule/Assets/Scripts/MobileInput/MobileInputSettingsData.cs:124-130 | The four swipe and tap thresholds come from the new data. The four tilt thresholds keep their old values. |
| Settings.MobileInputSettingsData.OverrideData | MobileInputModule/Assets/Scripts/MobileInput/MobileInputSettingsData.cs:124-130 | After the call, the asset's eight fields are `Overridden(old fields, argument's fields)`. |
| Settings.OverrideIdempotent | MobileInputModule/Assets/Scripts/MobileInput/MobileInputSettingsData.cs:124-130 | Overriding twice with the same data is the same as overriding once. |
| Settings.DefaultsWithinDeclaredRanges | MobileInputModule/Assets/Scripts/MobileInput/MobileInputSettingsData.cs:23-86 | The field initialisers lie within the `[Range]`/`[Min]` bounds. With the defaults, every touch longer than zero seconds lies inside the tap window, because the maximum is +infinity. |
| Helper.CastToDeltaMovementArgs | MobileInputModule/Assets/Scripts/MobileInput/MobileInputHelper.cs:22 | The `as` cast yields the same record exactly when the record implements the delta-movement interface, and null otherwise. |
| Helper.CastToVectorMovementArgs | MobileInputModule/Assets/Scripts/MobileInput/MobileInputHelper.cs:30 | The same, for the vector-movement interface. |
| Helper.CastToIntensityArgs | MobileInputModule/Assets/Scripts/MobileInput/MobileInputHelper.cs:38 | The same, for the intensity interface. |
| Helper.GetDirection | MobileInputModule/Assets/Scripts/MobileInput/MobileInputHelper.cs:46 | The direction is the vector that leads from the start to the end; it is zero exactly when start and end coincide. |
| Helper.GetDirectionOfDeltaMovement | MobileInputModule/Assets/Scripts/MobileInput/MobileInputHelper.cs:54 | The delta-movement direction is zero exactly when the delta is zero or start and end coincide. |
| Helper.GetDirectionOfIntensity | MobileInputModule/Assets/Scripts/MobileInput/MobileInputHelper.cs:62 | The intensity direction is zero exactly when the intensity is zero or start and end coincide. |
| Helper.GetMagnitude | MobileInputModule/Assets/Scripts/MobileInput/MobileInputHelper.cs:78 | The positional magnitude is nonnegative, and zero exactly when start and end coincide. |
| Helper.GetMagnitudeOfIntensity | MobileInputModule/Assets/Scripts/MobileInput/MobileInputHelper.cs:94 | The intensity enters twice: the result is the positional magnitude times the intensity's absolute value times the intensity. It is negative exactly for a negative intensity on arguments whose start and end differ. |
| Helper.GetMagnitudeOfVectorMovement | MobileInputModule/Assets/Scripts/MobileInput/MobileInputHelper.cs:102 | The vector magnitude is nonnegative, and zero exactly for a zero movement vector. |
| Helper.GetFocusPoint | MobileInputModule/Assets/Scripts/MobileInput/MobileInputHelper.cs:110 | The positional focus point lies on the ray from the start through the end, the square of the start-to-end distance away from the start; it is the start exactly when start and end coincide. |
| Helper.PositionalFocusPointPassesEnd | MobileInputModule/Assets/Scripts/MobileInput/MobileInputHelper.cs:110 | The positional focus point lies beyond the end exactly when the start-to-end distance exceeds 1; for shorter distances it lies between start and end. |
| Helper.PositionalFocusPointAtEnd | MobileInputModule/Assets/Scripts/MobileInput/MobileInputHelper.cs:110 | The positional focus point is the end itself exactly when the start-to-end distance is 1 or zero. |
| Helper.GetFocusPointOfDeltaMovement | MobileInputModule/Assets/Scripts/MobileInput/MobileInputHelper.cs:118 | The delta-movement focus point is the start exactly when the delta is zero or start and end coincide. |
| Helper.GetFocusPointOfIntensity | MobileInputModule/Assets/Scripts/MobileInput/MobileInputHelper.cs:126 | The intensity focus point is the start exactly when the intensity is zero or start and end coincide. |
| Helper.GetFocusPointOfVectorMovement | MobileInputModule/Assets/Scripts/MobileInput/MobileInputHelper.cs:134 | The vector focus point lies along the movement vector from the start, half the squared length of that vector away. |
| Helper.PointArgsHaveNoDirection | MobileInputModule/Assets/Scripts/MobileInput/MobileInputHelper.cs:46-110 | Arguments whose start equals their end have a zero positional direction and zero magnitude, and their focus point is the start. |
| Helper.FocusPointScalesBySquare | MobileInputModule/Assets/Scripts/MobileInput/MobileInputHelper.cs:118-126 | For the delta-movement and intensity overloads, the focus point scales the start-to-end vector by the square of the factor, not by the factor. |
| Helper.VectorFocusPointIsScaledByLength | MobileInputModule/Assets/Scripts/MobileInput/MobileInputHelper.cs:134 | The vector focus point is the end of the movement vector (start + vector) exactly when that vector has length 2 or is zero; in general it is not the middle. |
| Helper.SwipeOverloadsAgree | MobileInputModule/Assets/Scripts/MobileInput/MobileInputHelper.cs:46-102 | On a swipe's arguments the vector overloads of GetDirection and GetMagnitude agree with the positional ones, both magnitudes are the intensity, and the intensity overload of GetMagnitude is the cube of the swipe length. |
| Helper.TiltOverloadsDiffer | MobileInputModule/Assets/Scripts/MobileInput/MobileInputHelper.cs:46-102 | On a tilt's arguments the positional overloads give a zero direction and magnitude, while the vector overloads give the acceleration and its length. |
| Helper.ClosingPinchHasNegativeMagnitude | MobileInputModule/Assets/Scripts/MobileInput/MobileInputHelper.cs:86 | On a pinch's arguments the delta overload of GetMagnitude is negative exactly when the fingers closed in, and positive exactly when they moved apart. |
| Tap.IsTapValid | MobileInputModule/Assets/Scripts/MobileInput/MobileInputTrigger/Tap/TapEvaluator.cs:52-60 | True exactly when the duration from the first to the last key lies strictly between the minimum and the maximum tap duration. |
| Tap.CreateTapTriggerArgs | MobileInputModule/Assets/Scripts/MobileInput/MobileInputTrigger/Tap/TapEvaluator.cs:68-72 | Start and end are both the last position of the trace. |
| Tap.EvaluateEndedTouchHistory | MobileInputModule/Assets/Scripts/MobileInput/MobileInputTrigger/Tap/TapEvaluator.cs:40-44 | At most one event. Exactly one `OnTapDetected` at the last position when, and only when, the duration is in the window. |
| Tap.BoundsAreExclusive | MobileInputModule/Assets/Scripts/MobileInput/MobileInputTrigger/Tap/TapEvaluator.cs:58-59 | A duration equal to the minimum, or to a finite maximum, is no tap. |
| Tap.SingleSampleIsNoTap | MobileInputModule/Assets/Scripts/MobileInput/MobileInputTrigger/Tap/TapEvaluator.cs:52-60 | A touch that begins and ends in one frame is no tap under a nonnegative minimum. |
| Tap.EmptyRangeHasNoTaps | MobileInputModule/Assets/Scripts/MobileInput/MobileInputTrigger/Tap/TapEvaluator.cs:52-60 | A maximum at or below the minimum admits no tap. |
| Tap.IntermediateSamplesIgnored | MobileInputModule/Assets/Scripts/MobileInput/MobileInputTrigger/Tap/TapEvaluator.cs:40-72 | Replacing the samples between the first and the last changes neither the verdict nor the event. |
| Tap.TapHasNoMovement | MobileInputModule/Assets/Scripts/MobileInput/MobileInputTrigger/Tap/TapEvaluator.cs:68-72 | A tap's argument has a zero direction and zero length. |
| Tap.TapWindowScenario | MobileInputModule/Assets/Scripts/MobileInput/MobileInputTrigger/Tap/TapEvaluator.cs:40-60 | With bounds 0.05 s and 0.5 s, a 0.3 s touch is a tap at its end position and a 0.6 s touch is not. |
| Swipe.CalculateSwipeDirection | MobileInputModule/Assets/Scripts/MobileInput/MobileInputTrigger/Swipe/SwipeEvaluator.cs:164-177 | Each direction holds exactly when its axis has the strictly larger absolute movement, with the matching sign. A tie, the zero vector included, is NONE. |
| Swipe.CalculateSwipeOnScreenPercentage | MobileInputModule/Assets/Scripts/MobileInput/MobileInputTrigger/Swipe/SwipeEvaluator.cs:150-156 | Each percentage times the screen's width (or height) gives back the swipe length. |
| Swipe.IsSwipeValid | MobileInputModule/Assets/Scripts/MobileInput/MobileInputTrigger/Swipe/SwipeEvaluator.cs:120-142 | A horizontal swipe is valid exactly when its whole length reaches the horizontal minimum percent of the width. A vertical one, the vertical minimum of the height. NONE always passes. |
| Swipe.CreateSwipeTriggerArgs | MobileInputModule/Assets/Scripts/MobileInput/MobileInputTrigger/Swipe/SwipeEvaluator.cs:103-111 | Runs from the first to the last position. The movement vector is their difference, and the intensity is its nonnegative length. |
| Swipe.InvokeSwipeActions | MobileInputModule/Assets/Scripts/MobileInput/MobileInputTrigger/Swipe/SwipeEvaluator.cs:185-211 | NONE reports nothing. Any other direction reports the evaluator's direction event, MobileInput's direction event and `OnSwipeEnded`, in that order. |
| Swipe.EvaluateEndedTouchHistory | MobileInputModule/Assets/Scripts/MobileInput/MobileInputTrigger/Swipe/SwipeEvaluator.cs:81-95 | Reports something exactly when one axis dominates the first-to-last vector and that vector is long enough for its axis. What it reports is the three swipe events of that direction. |
| Swipe.CallTouchHistoryEvaluation | MobileInputModule/Assets/Scripts/MobileInput/MobileInputTrigger/Swipe/SwipeEventDetector.cs:61-66 | Reports something exactly when the first-to-last vector is an accepted swipe (one axis dominates and it is long enough for its axis). What it reports is a direction event other than NONE, the matching action event and `OnSwipeEnded` with the trace's swipe arguments; a one-sample history reports nothing. |
| Swipe.SizeGuardIsRedundant | MobileInputModule/Assets/Scripts/MobileInput/MobileInputTrigger/Swipe/SwipeEventDetector.cs:63 | The one-sample guard changes no outcome, because a one-sample swipe has no direction. |
| Swipe.OnlyEndPointsMatter | MobileInputModule/Assets/Scripts/MobileInput/MobileInputTrigger/Swipe/SwipeEvaluator.cs:81-95 | Two traces with the same first and last positions are reported alike. |
| Swipe.DiagonalSwipeNeverReported | MobileInputModule/Assets/Scripts/MobileInput/MobileInputTrigger/Swipe/SwipeEvaluator.cs:164-177 | A swipe that moves equally on both axes is never reported, however long it is. |
| Swipe.HorizontalThresholdScenario | MobileInputModule/Assets/Scripts/MobileInput/MobileInputTrigger/Swipe/SwipeEvaluator.cs:120-142 | On a 1000 x 1000 screen with a 20 % horizontal minimum, a 250 px swipe to the right reports exactly the right-direction event, the right action and `OnSwipeEnded` with its start, end, length 250 and vector; a 100 px one reports nothing. |
| Swipe.OngoingArgsOfTrace | MobileInputModule/Assets/Scripts/MobileInput/MobileInputTrigger/Swipe/SwipeEventDetector.cs:42-50 | The arguments built from the simulated two-sample history run from the earlier key to the later one. A negative deltaTime therefore swaps the end points. |
| Swipe.OngoingSwipeArgs | MobileInputModule/Assets/Scripts/MobileInput/MobileInputTrigger/Swipe/SwipeEventDetector.cs:42-50 | The arguments of an ongoing swipe join the current and the previous position, ordered by key: the current position is the end for a positive deltaTime and the start otherwise. The movement vector is end minus start, and the intensity is the length of the touch delta. |
| Swipe.CallOngoingSwipe | MobileInputModule/Assets/Scripts/MobileInput/MobileInputTrigger/Swipe/SwipeEventDetector.cs:39-54 | Throws exactly when deltaTime is 0, because the second Add finds key 0 taken. Otherwise reports `OnSwipeMoving`, then `OnSwipeDetected`, with the same arguments. For a positive deltaTime those run from the previous position to the current one, carrying the delta as vector and its length as intensity. |
| Pinch.CalculatePinchDeltaMovement | MobileInputModule/Assets/Scripts/MobileInput/MobileInputTrigger/Pinch/PinchEvaluator.cs:64-71 | The previous length plus the result is the current length. The result is positive exactly when the span grew, and negative exactly when it shrank. |
| Pinch.EvaluateOngoingPinch | MobileInputModule/Assets/Scripts/MobileInput/MobileInputTrigger/Pinch/PinchEvaluator.cs:36-55 | Exactly one `OnPinchDetected`. It runs from finger 0 to finger 1, and its delta is the change of span length. Its intensity is the nonnegative length of the difference between the previous and the current span vectors. |
| Pinch.StationaryFingers | MobileInputModule/Assets/Scripts/MobileInput/MobileInputTrigger/Pinch/PinchEvaluator.cs:40-52 | Fingers that did not move report delta 0. Because the two span vectors point opposite ways, the intensity is twice the span. |
| Pinch.FingerOrderIrrelevant | MobileInputModule/Assets/Scripts/MobileInput/MobileInputTrigger/Pinch/PinchEvaluator.cs:36-55 | Swapping the fingers keeps delta and intensity and swaps start and end. |
| Pinch.SpreadScenario | MobileInputModule/Assets/Scripts/MobileInput/MobileInputTrigger/Pinch/PinchEvaluator.cs:36-71 | Fingers 100 px apart that spread to 150 px report a delta of +50. |
| Tilt.CalculateTiltDirections | MobileInputModule/Assets/Scripts/MobileInput/MobileInputTrigger/Tilt/TiltEvaluator.cs:216-231 | Each direction is present exactly when its component has the matching sign. There is never NONE, at most one direction per axis, no repeats, and the horizontal direction comes first. |
| Tilt.CheckIsTiltValid | MobileInputModule/Assets/Scripts/MobileInput/MobileInputTrigger/Tilt/TiltEvaluator.cs:190-208 | NONE never passes. With thresholds on the right side of zero, a direction that passes its threshold is one of the classified directions. |
| Tilt.CreateTiltTriggerArgs | MobileInputModule/Assets/Scripts/MobileInput/MobileInputTrigger/Tilt/TiltEvaluator.cs:301 | The acceleration becomes the movement vector, with both positions zero. |
| Tilt.OngoingTiltDirectionAction | MobileInputModule/Assets/Scripts/MobileInput/MobileInputTrigger/Tilt/TiltEvaluator.cs:239-259 | One ongoing event for that direction; none for NONE. |
| Tilt.EndedTiltAction | MobileInputModule/Assets/Scripts/MobileInput/MobileInputTrigger/Tilt/TiltEvaluator.cs:273-293 | One end event for that direction; none for NONE. |
| Tilt.Passing | MobileInputModule/Assets/Scripts/MobileInput/MobileInputTrigger/Tilt/TiltEvaluator.cs:152-170 | The directions that get tracked: exactly the listed directions that pass their threshold. |
| Tilt.PrefixStep | MobileInputModule/Assets/Scripts/MobileInput/MobileInputTrigger/Tilt/TiltEvaluator.cs:156-166 | One more loop iteration adds exactly that direction's event and tracked entry, when it passes. |
| Tilt.TrackedAreClassified | MobileInputModule/Assets/Scripts/MobileInput/MobileInputTrigger/Tilt/TiltEvaluator.cs:117-124 | After a frame, every tracked tilt is classified by the current acceleration. So two opposite tilts, or NONE, are never tracked. |
| Tilt.BelowThresholdStaysTracked | MobileInputModule/Assets/Scripts/MobileInput/MobileInputTrigger/Tilt/TiltEvaluator.cs:117-208 | A tracked right tilt that drops below its threshold but stays positive is neither reported nor ended. It stays tracked without any event. |
| Tilt.NeverValidNeverEnds | MobileInputModule/Assets/Scripts/MobileInput/MobileInputTrigger/Tilt/TiltEvaluator.cs:117-181 | Across any sequence of frames, an untracked direction that never passes its threshold is never tracked and never ended. |
| Tilt.RightTiltScenario | MobileInputModule/Assets/Scripts/MobileInput/MobileInputTrigger/Tilt/TiltEvaluator.cs:117-124 | With the default thresholds, a right tilt of 0.5 reports the right-tilt event, then `OnOngoingTilt`, and is tracked. |
| Tilt.ReleaseScenario | MobileInputModule/Assets/Scripts/MobileInput/MobileInputTrigger/Tilt/TiltEvaluator.cs:131-144 | Easing back to 0.1 ends nothing and reports nothing. Levelling the device ends the right tilt. |
| Tilt.HandleEndedTiltsAsWritten | MobileInputModule/Assets/Scripts/MobileInput/MobileInputTrigger/Tilt/TiltEvaluator.cs:131-144 | The loop as written reports at most one end, and removes only tracked tilts. |
| Tilt.AsWrittenThrowsAtFirstEnd | MobileInputModule/Assets/Scripts/MobileInput/MobileInputTrigger/Tilt/TiltEvaluator.cs:131-144 | In any enumeration order, the loop as written throws exactly when it meets an ended tilt, after reporting and removing that one only. |
| Tilt.AsWrittenThrowsOnEveryEnd | MobileInputModule/Assets/Scripts/MobileInput/MobileInputTrigger/Tilt/TiltEvaluator.cs:131-144 | Over the whole tracked set, the loop as written throws exactly when some tilt ended, and then reports a single end however many ended. |
| Tilt.TiltReversalCounterexample | MobileInputModule/Assets/Scripts/MobileInput/MobileInputTrigger/Tilt/TiltEvaluator.cs:131-144 | A tracked right tilt with acceleration (-0.5, 0) has ended, yet the loop as written reports it and throws. |
| Tilt.TiltEvaluator.Setup | MobileInputModule/Assets/Scripts/MobileInput/MobileInputTrigger/Tilt/TiltEvaluator.cs:110 | Replaces the settings and keeps the tracked tilts. |
| Tilt.TiltEvaluator.EvaluateOngoingTilt | MobileInputModule/Assets/Scripts/MobileInput/MobileInputTrigger/Tilt/TiltEvaluator.cs:117-124 | First one end event per tracked tilt that is no longer classified, in some order; then the frame's ongoing events. The tracked set becomes the still-classified tracked tilts plus those that passed. |
| Tilt.TiltEvaluator.HandleEndedTilts | MobileInputModule/Assets/Scripts/MobileInput/MobileInputTrigger/Tilt/TiltEvaluator.cs:131-144 | Corrected: every tracked tilt not among the classified directions is reported as ended once, in any order, and dropped. Nothing else is reported. |
| Tilt.TiltEvaluator.UpdatePreviousOngoingTilts | MobileInputModule/Assets/Scripts/MobileInput/MobileInputTrigger/Tilt/TiltEvaluator.cs:177-181 | The direction joins the tracked set. |
| Tilt.TiltEvaluator.HandleOngoingTilts | MobileInputModule/Assets/Scripts/MobileInput/MobileInputTrigger/Tilt/TiltEvaluator.cs:152-170 | The per-direction events of the passing directions, in order, then `OnOngoingTilt` once if any passed. The passing directions join the tracked set. |
| Input.EndedTouchEvents | MobileInputModule/Assets/Scripts/MobileInput/MobileInput.cs:307-311 | At most four events. The first is a tap at the last position exactly when the trace is a valid tap; a tap can come nowhere else, and every other event is one of the three swipe events. Three or four events exactly when the swipe is accepted. |
| Input.TrackOne | MobileInputModule/Assets/Scripts/MobileInput/MobileInput.cs:255-257 | Throws exactly when the finger is tracked and its trace already has this time stamp. Otherwise a tracked finger's trace gains exactly the sample (time, position), as a multiset and as a key, and no other trace changes; an untracked finger changes nothing. |
| Input.TrackAll | MobileInputModule/Assets/Scripts/MobileInput/MobileInput.cs:251-260 | No finger starts or stops being tracked, and the traces of fingers without a touch are unchanged. When nothing throws, every tracked touched finger's trace holds the frame's time. |
| Input.TrackAllThrowsOnRepeat | MobileInputModule/Assets/Scripts/MobileInput/MobileInput.cs:251-260 | TrackTouches throws when a touched, tracked finger already has a sample at the frame's time. |
| Input.TrackAllGains | MobileInputModule/Assets/Scripts/MobileInput/MobileInput.cs:251-260 | When TrackTouches does not throw, every touched, tracked finger's trace gains exactly the sample (time, position) of its touch, as a multiset. |
| Input.PhaseOutcome | MobileInputModule/Assets/Scripts/MobileInput/MobileInput.cs:270-287 | An exception leaves the store unchanged and reports nothing. Only the touched finger can become tracked, and no pinch is reported. |
| Input.PhaseOutcomeLeavesOthers | MobileInputModule/Assets/Scripts/MobileInput/MobileInput.cs:270-287 | The case for one touch leaves the traces of every other finger as they were. |
| Input.CheckAll | MobileInputModule/Assets/Scripts/MobileInput/MobileInput.cs:268-288 | Only touched fingers can become tracked, traces stay well formed, and the phase switch never reports a pinch. |
| Input.CheckAllLeavesOthers | MobileInputModule/Assets/Scripts/MobileInput/MobileInput.cs:268-288 | The phase switch leaves the trace of every finger no touch carries as it was. |
| Input.PinchEvents | MobileInputModule/Assets/Scripts/MobileInput/MobileInput.cs:291-292 | At most one event, and one exactly when two touches are on the screen: a pinch running from touch 0 to touch 1. |
| Input.TouchFrame | MobileInputModule/Assets/Scripts/MobileInput/MobileInput.cs:225-226 | The touch part of a frame keeps the traces well formed, and only touched fingers can become tracked. |
| Input.TouchFrameLeavesOthers | MobileInputModule/Assets/Scripts/MobileInput/MobileInput.cs:225-226 | The touch part of a frame leaves the trace of every finger it has no touch for as it was. |
| Input.TrackAppendsOnAdvancingClock | MobileInputModule/Assets/Scripts/MobileInput/MobileInput.cs:251-260 | With a forward-moving clock and distinct fingers, TrackTouches never throws and appends the frame's sample to the end of every tracked touched trace. |
| Input.SingleTouchFrame | MobileInputModule/Assets/Scripts/MobileInput/MobileInput.cs:225-226 | A one-touch frame is TrackTouches, then that touch's phase case, unless tracking threw. |
| Input.EndedTouchSeesFinalSample | MobileInputModule/Assets/Scripts/MobileInput/MobileInput.cs:275-277 | An ending finger is evaluated on its trace including the sample of the frame it ends in, and then forgotten. |
| Input.LaterEndedTouch | MobileInputModule/Assets/Scripts/MobileInput/MobileInput.cs:275-277 | The same, stated for a given trace older than the frame. |
| Input.BeganStartsTrace | MobileInputModule/Assets/Scripts/MobileInput/MobileInput.cs:272-273 | A new finger gets a trace holding only its begin sample, with no event. |
| Input.DuplicateBeginThrows | MobileInputModule/Assets/Scripts/MobileInput/MobileInput.cs:272-273 | Beginning a finger that is still tracked throws. Its old trace has already received the frame's sample. |
| Input.UnknownEndedFingerThrows | MobileInputModule/Assets/Scripts/MobileInput/MobileInput.cs:309 | Ending an untracked finger throws before any event and changes nothing. |
| Input.CancelForgets | MobileInputModule/Assets/Scripts/MobileInput/MobileInput.cs:279-280 | A canceled finger is forgotten silently, whether or not it was tracked. |
| Input.TapLifecycle | MobileInputModule/Assets/Scripts/MobileInput/MobileInput.cs:266-311 | A finger that begins at t0 and ends at t1 leaves the store as it found it. Its first event is a tap at the end position exactly when t1 - t0 lies strictly inside the tap window. |
| Input.EndedAfterBegan | MobileInputModule/Assets/Scripts/MobileInput/MobileInput.cs:275-277 | The ending frame of that lifecycle, on the store the begin frame leaves. |
| Input.TwoSampleTap | MobileInputModule/Assets/Scripts/MobileInput/MobileInputTrigger/Tap/TapEvaluator.cs:52-60 | A trace of a begin and an end sample is a tap exactly when the time between them lies in the window. |
| Input.EndedTouchTapVerdict | MobileInputModule/Assets/Scripts/MobileInput/MobileInput.cs:307-311 | An ending finger's first event is a tap exactly when its final trace is a valid tap. |
| Input.PinchOnlyWithTwoTouches | MobileInputModule/Assets/Scripts/MobileInput/MobileInput.cs:291-292 | A frame that completes reports a pinch exactly when two touches are on the screen. |
| Input.TrackedAcceleration | MobileInputModule/Assets/Scripts/MobileInput/MobileInput.cs:233-239 | The history only grows, by at most one entry, and grows exactly when it is empty and the acceleration is non-zero; the new entry is that acceleration. A history of at most one non-zero entry stays one. |
| Input.MobileInput.TrackDeviceAcceleration | MobileInputModule/Assets/Scripts/MobileInput/MobileInput.cs:233-239 | The acceleration history becomes `TrackedAcceleration` of the old one. The touch store is unchanged. |
| Input.MobileInput.TrackTouches | MobileInputModule/Assets/Scripts/MobileInput/MobileInput.cs:251-260 | The loop leaves the store and the exception that `TrackAll` gives. |
| Input.MobileInput.CheckTouch | MobileInputModule/Assets/Scripts/MobileInput/MobileInput.cs:270-287 | One case of the phase switch, as `PhaseOutcome` gives it. |
| Input.MobileInput.CheckTouchInputEvents | MobileInputModule/Assets/Scripts/MobileInput/MobileInput.cs:266-293 | The loop gives `CheckAll`'s store, events and exception. When nothing throws, the pinch events follow. |
| Input.MobileInput.Process | MobileInputModule/Assets/Scripts/MobileInput/MobileInput.cs:220-227 | The acceleration is tracked and the tilt classifier runs: its end events, then its ongoing events, and the tracked set becomes NextTracked. The touch store, touch events and exception are then those of TrackTouches followed by CheckTouchInputEvents. |
| Reaction.Rebuilt | MobileInputModule/Assets/Scripts/MobileInput/MobileInputReaction.cs:76-89 | A rebuilt container keeps exactly the old container's keys. |
| Reaction.FromIndexList | MobileInputModule/Assets/Editor/MobileInputReactionInspector.cs:135-144 | The container built for n reaction fields has exactly the keys 0 to n - 1. |
| Reaction.Resized | MobileInputModule/Assets/Editor/MobileInputReactionInspector.cs:279-289 | A resized container has exactly the keys 0 to n - 1. |
| Reaction.RebuiltFollowsList | MobileInputModule/Assets/Scripts/MobileInput/MobileInputReaction.cs:76-89 | Every rebuilt entry is true exactly when the list holds its key. A listed index without a container entry gets none. |
| Reaction.RebuildIdempotent | MobileInputModule/Assets/Scripts/MobileInput/MobileInputReaction.cs:76-89 | Rebuilding twice from the same list is the same as rebuilding once. |
| Reaction.RebuiltFromUsedList | MobileInputModule/Assets/Editor/MobileInputReactionInspector.cs:152-167 | Rebuilding a container from the list of its own used keys gives it back, entry for entry. |
| Reaction.ResizedDenseIsSame | MobileInputModule/Assets/Editor/MobileInputReactionInspector.cs:279-289 | A dense container that already has the right size is not changed by resizing. |
| Reaction.FromIndexListIsResized | MobileInputModule/Assets/Editor/MobileInputReactionInspector.cs:135-144 | A container built by the inspector already has its target size, so resizing keeps it. Listed indices at or beyond the field count get no entry. |
| Reaction.RebuildUsageContainer | MobileInputModule/Assets/Scripts/MobileInput/MobileInputReaction.cs:79-81 | In any enumeration order, the foreach over a container builds `Rebuilt(container, list)`. |
| Reaction.CollectUsedIndices | MobileInputModule/Assets/Editor/MobileInputReactionInspector.cs:155-159 | In any enumeration order, the list collects each key whose entry is true, exactly once, and nothing else. |
| Reaction.MobileInputReaction.Setup | MobileInputModule/Assets/Scripts/MobileInput/MobileInputReaction.cs:76-89 | Both containers are rebuilt from their index lists. The lists are unchanged. |
| Reaction.MobileInputReactionInspector.SetupSerializedProperties | MobileInputModule/Assets/Editor/MobileInputReactionInspector.cs:129-145 | Both inspector containers have one entry per reaction field. Each entry is true exactly when the component's list holds the index. |
| Reaction.MobileInputReactionInspector.BuildUsage | MobileInputModule/Assets/Editor/MobileInputReactionInspector.cs:135-138 | The for-loop builds the dense container `FromIndexList(n, list)`. |
| Reaction.MobileInputReactionInspector.UpdateArgumentTriggerUsage | MobileInputModule/Assets/Editor/MobileInputReactionInspector.cs:152-167 | The component's argument list becomes exactly the used keys of the inspector's container, and its argument container equals the inspector's. The action fields are unchanged. |
| Reaction.MobileInputReactionInspector.UpdateActionTriggerUsage | MobileInputModule/Assets/Editor/MobileInputReactionInspector.cs:174-189 | The same for the action list and container. The argument fields are unchanged. |
| Reaction.MobileInputReactionInspector.ResizeUsageDictionary | MobileInputModule/Assets/Editor/MobileInputReactionInspector.cs:279-289 | From a dense container, the recursion ends with a dense container of exactly the field count. Its entries below the old size are kept, and new ones are false. |
| Reaction.RemoveLast | MobileInputModule/Assets/Editor/MobileInputReactionInspector.cs:281-282 | Removing key Count - 1 keeps the container dense, one smaller, and with the same contents at every smaller size. |
| Reaction.AddLast | MobileInputModule/Assets/Editor/MobileInputReactionInspector.cs:283-284 | Adding key Count as false keeps the container dense, one larger, and with the same contents at every larger size. |

## Left out

- **Numbers.** `float` is modelled as `real`, so there is no rounding, overflow or NaN. The one infinity, `(float)double.MaxValue` as the default maximum tap duration, is modelled explicitly as `Limit.PositiveInfinity`.
- **Vector length.** `Vector2.magnitude` (a square root) is a parameter `norm`, constrained to behave as a norm. Properties that need the Euclidean length itself, such as the exact value of the diagonal of a swipe, are not stated.
- **Unity inputs.** `Input.touches`, `Input.touchCount`, `Time.realtimeSinceStartup`, `Screen.width`/`Screen.height` and `MobileInput.DeviceAcceleration` are parameters of `Process`.
  - The clock is one `time` per frame. The source reads `Time.realtimeSinceStartup` afresh for every tracked touch (MobileInput.cs:257) and every began touch (MobileInput.cs:273), so two touches of one frame may get different keys there. The model does not capture frames whose clock reads differ.
  - Only the x and y components of the acceleration are read by the classifier, and only those are modelled.
  - `TouchAmount` is taken as the number of touches, so a device without touch support is not modelled.
  - The screen is assumed to have a positive size.
- **Gyroscope.** `GyroscopeRotation` is not used by the classifier and is not modelled.
- **Event listeners.** Listeners on the static events and on the input triggers are not modelled. Invoking an event is recorded as an event value, so a listener that throws or re-enters is not captured.
  - TapEventDetector.cs, PinchEventDetector.cs and TiltEventDetector.cs are not part of this model. They only forward to the evaluators, and the model calls the evaluators directly.
- **Enumeration orders.** The orders of `previousTilts` and of the reaction containers are left open. `Tilt.TiltEvaluator.EvaluateOngoingTilt` and `Input.MobileInput.Process` therefore state the end events as "one per ended tilt, in some order", not as a fixed sequence.
- Tilt.CalculateTiltDirections: returns the horizontal direction before the vertical one, so `HandleOngoingTilts` reports them in that order. This takes the order of a fresh `HashSet` with no removals to be its insertion order, which is what the .NET implementation does but does not document.
- **Process and the tilt bug.** `Input.MobileInput.Process` runs the corrected `HandleEndedTilts` (see Findings). The frame abort caused by the as-written exception is modelled only in `Tilt.HandleEndedTiltsAsWritten`.
- **Released tilts.** A tilt ends only when its direction is no longer classified, not when it drops below its threshold: a right tilt eased back to x = 0.1 stays tracked, because 0.1 is still classified as right (`Tilt.ReleaseScenario`).
- **Settings asset.** `MobileInputSettingsData.Setup` and the loading and saving of the asset are I/O and are left out. The `[Range]` attributes are editor clamps, not invariants of the class. They are stated as a predicate that holds for the defaults.
- **Reaction component.** `MobileInputReaction.Start`, `OnDestroy` and the `InputReactionField` Setup/Shutdown that they call are left out.
  - The editor GUI is left out: `OnInspectorGUI`, `HandleReactionFields`, `CreateSpaceBetweenFields`, `ResetReactionField`.
  - The serialized-property plumbing is left out. `inputReactionFields.arraySize` is a field of the inspector model.
- Reaction.MobileInputReactionInspector.ResizeUsageDictionary: requires the container's keys to be exactly 0 to Count - 1, as every container the inspector builds is.
  - With any other keys, the source's recursion need not end: removing a missing key leaves Count unchanged.
  - Adding the key Count can also throw when Count is already a key.

## Findings

| source | as written | input that shows it | evidently intended | confidence | as-written member | corrected member |
|---|---|---|---|---|---|---|
| MobileInputModule/Assets/Scripts/MobileInput/MobileInputTrigger/Tilt/TiltEvaluator.cs:131-144 | `remainingActivePreviousTilts` is the `previousTilts` set being enumerated. Removing an ended tilt from it invalidates the enumerator, and the next `MoveNext` throws `InvalidOperationException`. The rest of the tilt frame and the whole touch part of `Process` are skipped. | previousTilts = {RIGHT} and acceleration (-0.5, 0): RIGHT is reported ended, then the loop throws | Report and drop every tracked tilt that is no longer classified, and carry on with the frame | not executed | Tilt.TiltReversalCounterexample | Tilt.TiltEvaluator.HandleEndedTilts |
