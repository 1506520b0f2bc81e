/**
 * TapEvaluator: a touch that ends is a tap when the time between its first and
 * last sample lies strictly between the minimum and maximum tap duration.
 */
module Tap {
  import opened Geometry
  import opened Traces
  import opened Settings
  import opened Events

  /** Last key minus first key of the trace. */
  function Duration(history: Trace): real
    requires |history| >= 1
  {
    Last(history).time - First(history).time
  }

  /** IsTapValid: both bounds are strict. */
  function IsTapValid(history: Trace, settings: Thresholds): (ok: bool)
    requires |history| >= 1
    ensures ok <==> settings.minTapDuration < Duration(history) && Below(Duration(history), settings.maxTapDuration)
  {
    var startTime := First(history).time;
    var endTime := Last(history).time;
    var duration := endTime - startTime;
    duration > settings.minTapDuration && Below(duration, settings.maxTapDuration)
  }

  /** CreateTapTriggerArgs: start and end are both the last position of the touch. */
  function CreateTapTriggerArgs(history: Trace): (args: InputArgs)
    requires |history| >= 1
    ensures args.TapArgs? && args.startPos == args.endPos == Last(history).pos
  {
    var position := Last(history).pos;
    TapArgs(position, position)
  }

  /** TapEvaluator.EvaluateEndedTouchHistory: at most one OnTapDetected, exactly when the duration is in range. */
  function EvaluateEndedTouchHistory(history: Trace, settings: Thresholds): (events: seq<Event>)
    requires |history| >= 1
    ensures |events| <= 1
    ensures |events| == 1 <==> settings.minTapDuration < Duration(history) && Below(Duration(history), settings.maxTapDuration)
    ensures |events| == 1 ==> events[0] == OnTapDetected(TapArgs(Last(history).pos, Last(history).pos))
  {
    if IsTapValid(history, settings) then [OnTapDetected(CreateTapTriggerArgs(history))] else []
  }

  /** A touch that lasts exactly the minimum, or exactly a finite maximum, is no tap. */
  lemma BoundsAreExclusive(history: Trace, settings: Thresholds)
    requires |history| >= 1
    requires Duration(history) == settings.minTapDuration
          || (settings.maxTapDuration.Finite? && Duration(history) == settings.maxTapDuration.value)
    ensures EvaluateEndedTouchHistory(history, settings) == []
  {
  }

  /** A touch that began and ended in the same frame has duration zero, so it is no tap unless the minimum is negative. */
  lemma SingleSampleIsNoTap(history: Trace, settings: Thresholds)
    requires |history| == 1 && settings.minTapDuration >= 0.0
    ensures EvaluateEndedTouchHistory(history, settings) == []
  {
  }

  /** With a maximum at or below the minimum, nothing is ever a tap. */
  lemma EmptyRangeHasNoTaps(history: Trace, settings: Thresholds)
    requires |history| >= 1
    requires settings.maxTapDuration.Finite? && settings.maxTapDuration.value <= settings.minTapDuration
    ensures EvaluateEndedTouchHistory(history, settings) == []
  {
  }

  /** Only the first and last samples matter: samples in between never change the verdict or the position. */
  lemma IntermediateSamplesIgnored(history: Trace, middle: Trace, settings: Thresholds)
    requires |history| >= 2
    ensures EvaluateEndedTouchHistory([history[0]] + middle + [history[|history| - 1]], settings)
         == EvaluateEndedTouchHistory(history, settings)
  {
    var h := [history[0]] + middle + [history[|history| - 1]];
    assert First(h) == First(history) && Last(h) == Last(history);
  }

  /** The argument of a tap has no direction and a length of zero. */
  lemma TapHasNoMovement(history: Trace, norm: Norm)
    requires |history| >= 1
    ensures Sub(CreateTapTriggerArgs(history).endPos, CreateTapTriggerArgs(history).startPos) == Zero
    ensures norm(Sub(CreateTapTriggerArgs(history).endPos, CreateTapTriggerArgs(history).startPos)) == 0.0
  {
  }

  /** With 0.05 s and 0.5 s as bounds, a touch of 0.3 s is a tap at its end position and one of 0.6 s is not. */
  lemma TapWindowScenario()
    ensures var settings := Defaults.(minTapDuration := 0.05, maxTapDuration := Finite(0.5));
      var quick := [Sample(1.0, Vec2(10.0, 20.0)), Sample(1.3, Vec2(12.0, 20.0))];
      var slow := [Sample(1.0, Vec2(10.0, 20.0)), Sample(1.6, Vec2(12.0, 20.0))];
      && EvaluateEndedTouchHistory(quick, settings) == [OnTapDetected(TapArgs(Vec2(12.0, 20.0), Vec2(12.0, 20.0)))]
      && EvaluateEndedTouchHistory(slow, settings) == []
  {
  }
}
