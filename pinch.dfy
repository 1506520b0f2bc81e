/**
 * PinchEvaluator: with exactly two touches on the screen, compares the span
 * between the fingers one frame ago with the current span.
 */
module Pinch {
  import opened Geometry
  import opened Engine
  import opened Events

  /** position - deltaPosition: where the finger was one frame ago. */
  function PreviousPosition(touch: Touch): Vec2 {
    Sub(touch.position, touch.deltaPosition)
  }

  /** The span one frame ago, from finger one to finger zero. */
  function PreviousSpan(touchZero: Touch, touchOne: Touch): Vec2 {
    Sub(PreviousPosition(touchZero), PreviousPosition(touchOne))
  }

  /** The current span, from finger zero to finger one: the opposite orientation of PreviousSpan. */
  function CurrentSpan(touchZero: Touch, touchOne: Touch): Vec2 {
    Sub(touchOne.position, touchZero.position)
  }

  /** CalculatePinchDeltaMovement: positive when the fingers moved apart, negative when they closed in. */
  function CalculatePinchDeltaMovement(prevTouchDeltaMovement: Vec2, curTouchDeltaMovement: Vec2, norm: Norm): (delta: real)
    ensures delta > 0.0 <==> norm(curTouchDeltaMovement) > norm(prevTouchDeltaMovement)
    ensures delta < 0.0 <==> norm(curTouchDeltaMovement) < norm(prevTouchDeltaMovement)
    ensures norm(prevTouchDeltaMovement) + delta == norm(curTouchDeltaMovement)
  {
    norm(curTouchDeltaMovement) - norm(prevTouchDeltaMovement)
  }

  /**
   * EvaluateOngoingPinch: exactly one OnPinchDetected, carrying the change of
   * span length, the two current positions and the length of the difference
   * vector of the two spans as intensity.
   */
  function EvaluateOngoingPinch(touchZero: Touch, touchOne: Touch, norm: Norm): (events: seq<Event>)
    ensures |events| == 1 && events[0].OnPinchDetected?
    ensures var args := events[0].args;
      && args.PinchArgs? && IsDeltaMovementArgs(args) && IsIntensityArgs(args)
      && args.startPos == touchZero.position && args.endPos == touchOne.position
      && norm(PreviousSpan(touchZero, touchOne)) + args.deltaMovement == norm(CurrentSpan(touchZero, touchOne))
      && args.intensity == norm(Sub(PreviousSpan(touchZero, touchOne), CurrentSpan(touchZero, touchOne)))
      && args.intensity >= 0.0
  {
    var prevTouchDeltaMovement := PreviousSpan(touchZero, touchOne);
    var curTouchDeltaMovement := CurrentSpan(touchZero, touchOne);
    var pinchDeltaVector := Sub(prevTouchDeltaMovement, curTouchDeltaMovement);
    var pinchDeltaMovement := CalculatePinchDeltaMovement(prevTouchDeltaMovement, curTouchDeltaMovement, norm);
    [OnPinchDetected(PinchArgs(pinchDeltaMovement, touchZero.position, touchOne.position, norm(pinchDeltaVector)))]
  }

  /**
   * Two fingers that did not move report a delta of zero, but because the two
   * spans point in opposite directions the intensity is twice the span length.
   */
  lemma StationaryFingers(touchZero: Touch, touchOne: Touch, norm: Norm)
    requires touchZero.deltaPosition == Zero && touchOne.deltaPosition == Zero
    ensures var args := EvaluateOngoingPinch(touchZero, touchOne, norm)[0].args;
      && args.deltaMovement == 0.0
      && args.intensity == 2.0 * norm(Sub(touchOne.position, touchZero.position))
  {
    var span := Sub(touchOne.position, touchZero.position);
    assert PreviousSpan(touchZero, touchOne) == Neg(span);
    assert CurrentSpan(touchZero, touchOne) == span;
    assert norm(Neg(span)) == norm(span);
    assert Sub(Neg(span), span) == Neg(Scale(span, 2.0));
    assert norm(Scale(span, 2.0)) == 2.0 * norm(span);
  }

  /** Swapping the two fingers reports the same delta and intensity, with the positions swapped. */
  lemma FingerOrderIrrelevant(touchZero: Touch, touchOne: Touch, norm: Norm)
    ensures var a := EvaluateOngoingPinch(touchZero, touchOne, norm)[0].args;
      var b := EvaluateOngoingPinch(touchOne, touchZero, norm)[0].args;
      && a.deltaMovement == b.deltaMovement && a.intensity == b.intensity
      && a.startPos == b.endPos && a.endPos == b.startPos
  {
    assert PreviousSpan(touchOne, touchZero) == Neg(PreviousSpan(touchZero, touchOne));
    assert CurrentSpan(touchOne, touchZero) == Neg(CurrentSpan(touchZero, touchOne));
    assert Sub(PreviousSpan(touchOne, touchZero), CurrentSpan(touchOne, touchZero))
        == Neg(Sub(PreviousSpan(touchZero, touchOne), CurrentSpan(touchZero, touchOne)));
  }

  /** Fingers 100 px apart that spread to 150 px along the x axis report a delta of +50. */
  lemma SpreadScenario(touchZero: Touch, touchOne: Touch, norm: Norm)
    requires touchZero.position == Vec2(-25.0, 0.0) && touchZero.deltaPosition == Vec2(-25.0, 0.0)
    requires touchOne.position == Vec2(125.0, 0.0) && touchOne.deltaPosition == Vec2(25.0, 0.0)
    ensures EvaluateOngoingPinch(touchZero, touchOne, norm)[0].args.deltaMovement == 50.0
  {
    var p0, p1 := PreviousPosition(touchZero), PreviousPosition(touchOne);
    assert p0.x == 0.0 && p0.y == 0.0;
    assert p1.x == 100.0 && p1.y == 0.0;
    var prev, cur := PreviousSpan(touchZero, touchOne), CurrentSpan(touchZero, touchOne);
    assert prev.x == -100.0 && prev.y == 0.0;
    assert cur.x == 150.0 && cur.y == 0.0;
    AxisLength(prev, norm);
    AxisLength(cur, norm);
  }
}
