/**
 * SwipeEvaluator and SwipeEventDetector: classify the straight line from the
 * first to the last sample of a touch into a direction, check it against the
 * screen-relative minimum length, and report the swipe; and report every
 * movement of a touch as an ongoing swipe.
 */
module Swipe {
  import opened Geometry
  import opened Optional
  import opened Engine
  import opened Traces
  import opened Settings
  import opened Events

  /** Percentage of the screen in width and height (a fraction, despite the name). */
  datatype ScreenPercentage = ScreenPercentage(widthPercentage: real, heightPercentage: real)

  lemma SquareGreater(p: real, q: real)
    requires p > q >= 0.0
    ensures p * p > q * q
  {
    assert p * p - p * q == p * (p - q);
    assert p * (p - q) > 0.0;
    assert p * q - q * q == q * (p - q);
    assert q * (p - q) >= 0.0;
  }

  /** Comparing Math.Sqrt(a * a) is comparing absolute values, and the square root is monotone. */
  lemma AbsOrderBySquares(a: real, b: real)
    ensures Abs(a) > Abs(b) <==> a * a > b * b
  {
    var p, q := Abs(a), Abs(b);
    assert a * a == p * p && b * b == q * q;
    if p > q { SquareGreater(p, q); }
    else if p < q { SquareGreater(q, p); }
  }

  /** CalculateSwipeDirection: the axis of larger absolute movement wins; a tie, the zero vector included, has no direction. */
  function CalculateSwipeDirection(swipeVector: Vec2): (d: SwipeDirection)
    ensures d == SwipeRight <==> Abs(swipeVector.x) > Abs(swipeVector.y) && swipeVector.x > 0.0
    ensures d == SwipeLeft <==> Abs(swipeVector.x) > Abs(swipeVector.y) && swipeVector.x < 0.0
    ensures d == SwipeUp <==> Abs(swipeVector.y) > Abs(swipeVector.x) && swipeVector.y > 0.0
    ensures d == SwipeDown <==> Abs(swipeVector.y) > Abs(swipeVector.x) && swipeVector.y < 0.0
    ensures d == SwipeNone <==> Abs(swipeVector.x) == Abs(swipeVector.y)
  {
    AbsOrderBySquares(swipeVector.x, swipeVector.y);
    AbsOrderBySquares(swipeVector.y, swipeVector.x);
    var xx, yy := swipeVector.x * swipeVector.x, swipeVector.y * swipeVector.y;
    if xx > yy then (if swipeVector.x > 0.0 then SwipeRight else SwipeLeft)
    else if xx < yy then (if swipeVector.y > 0.0 then SwipeUp else SwipeDown)
    else SwipeNone
  }

  predicate IsHorizontal(d: SwipeDirection) { d.SwipeLeft? || d.SwipeRight? }

  predicate IsVertical(d: SwipeDirection) { d.SwipeUp? || d.SwipeDown? }

  /** CalculateSwipeOnScreenPercentage: the fraction of the screen width and height that the swipe length covers. */
  function CalculateSwipeOnScreenPercentage(swipeLength: real, screen: Screen): (p: ScreenPercentage)
    requires screen.Valid()
    ensures p.widthPercentage * (screen.width as real) == swipeLength
    ensures p.heightPercentage * (screen.height as real) == swipeLength
  {
    ScreenPercentage(swipeLength / screen.width as real, swipeLength / screen.height as real)
  }

  /**
   * IsSwipeValid: the whole length of the swipe vector (not its component
   * along the winning axis) must reach the minimum percentage of the screen
   * width for a horizontal swipe, of the height for a vertical one. A swipe
   * without direction passes.
   */
  function IsSwipeValid(completeSwipeVector: Vec2, swipeDirection: SwipeDirection, settings: Thresholds, screen: Screen, norm: Norm): (ok: bool)
    requires screen.Valid()
    ensures IsHorizontal(swipeDirection) ==>
      (ok <==> 100.0 * norm(completeSwipeVector) >= settings.minHorizontalSwipeLength * screen.width as real)
    ensures IsVertical(swipeDirection) ==>
      (ok <==> 100.0 * norm(completeSwipeVector) >= settings.minVerticalSwipeLength * screen.height as real)
    ensures swipeDirection == SwipeNone ==> ok
  {
    var swipeOnScreenPercentage := CalculateSwipeOnScreenPercentage(norm(completeSwipeVector), screen);
    var minHorizontal := settings.minHorizontalSwipeLength / 100.0;
    var minVertical := settings.minVerticalSwipeLength / 100.0;
    var w, h := screen.width as real, screen.height as real;
    assert minHorizontal > swipeOnScreenPercentage.widthPercentage
       <==> minHorizontal * w > swipeOnScreenPercentage.widthPercentage * w;
    assert minVertical > swipeOnScreenPercentage.heightPercentage
       <==> minVertical * h > swipeOnScreenPercentage.heightPercentage * h;
    match swipeDirection
    case SwipeLeft | SwipeRight => !(minHorizontal > swipeOnScreenPercentage.widthPercentage)
    case SwipeUp | SwipeDown => !(minVertical > swipeOnScreenPercentage.heightPercentage)
    case SwipeNone => true
  }

  /** CreateSwipeTriggerArgs: from the first to the last sample of the trace. */
  function CreateSwipeTriggerArgs(history: Trace, norm: Norm): (args: InputArgs)
    requires |history| >= 1
    ensures args.SwipeArgs? && IsVectorMovementArgs(args) && IsIntensityArgs(args)
    ensures args.startPos == First(history).pos && args.endPos == Last(history).pos
    ensures args.movementVector == Sub(args.endPos, args.startPos)
    ensures args.intensity == norm(args.movementVector) && args.intensity >= 0.0
  {
    var startPos := First(history).pos;
    var endPos := Last(history).pos;
    var completeSwipeVector := Sub(endPos, startPos);
    SwipeArgs(startPos, endPos, norm(completeSwipeVector), completeSwipeVector)
  }

  /**
   * InvokeSwipeActions: the evaluator's direction event, then MobileInput's,
   * then OnSwipeEnded; nothing at all for a swipe without direction.
   */
  function InvokeSwipeActions(args: InputArgs, direction: SwipeDirection): (events: seq<Event>)
    ensures direction == SwipeNone ==> events == []
    ensures direction != SwipeNone ==>
      events == [OnSwipeDirectionDetected(direction), OnSwipeAction(direction), OnSwipeEnded(args)]
  {
    match direction
    case SwipeLeft => [OnSwipeDirectionDetected(SwipeLeft), OnSwipeAction(SwipeLeft), OnSwipeEnded(args)]
    case SwipeRight => [OnSwipeDirectionDetected(SwipeRight), OnSwipeAction(SwipeRight), OnSwipeEnded(args)]
    case SwipeUp => [OnSwipeDirectionDetected(SwipeUp), OnSwipeAction(SwipeUp), OnSwipeEnded(args)]
    case SwipeDown => [OnSwipeDirectionDetected(SwipeDown), OnSwipeAction(SwipeDown), OnSwipeEnded(args)]
    case SwipeNone => []
  }

  /** The swipe vector of a trace: last position minus first, whatever lies between. */
  function SwipeVector(history: Trace): Vec2
    requires |history| >= 1
  {
    Sub(Last(history).pos, First(history).pos)
  }

  /** A completed swipe is reported iff one axis dominates and the vector is long enough for that axis. */
  predicate SwipeAccepted(v: Vec2, settings: Thresholds, screen: Screen, norm: Norm)
    requires screen.Valid()
  {
    || (Abs(v.x) > Abs(v.y) && 100.0 * norm(v) >= settings.minHorizontalSwipeLength * screen.width as real)
    || (Abs(v.y) > Abs(v.x) && 100.0 * norm(v) >= settings.minVerticalSwipeLength * screen.height as real)
  }

  /** SwipeEvaluator.EvaluateEndedTouchHistory */
  function EvaluateEndedTouchHistory(history: Trace, settings: Thresholds, screen: Screen, norm: Norm): (events: seq<Event>)
    requires |history| >= 1 && screen.Valid()
    ensures events != [] <==> SwipeAccepted(SwipeVector(history), settings, screen, norm)
    ensures events != [] ==>
      var d := CalculateSwipeDirection(SwipeVector(history));
      d != SwipeNone &&
      events == [OnSwipeDirectionDetected(d), OnSwipeAction(d), OnSwipeEnded(CreateSwipeTriggerArgs(history, norm))]
  {
    var startPos := First(history).pos;
    var endPos := Last(history).pos;
    var completeSwipeVector := Sub(endPos, startPos);
    var swipeDirection := CalculateSwipeDirection(completeSwipeVector);
    if IsSwipeValid(completeSwipeVector, swipeDirection, settings, screen, norm) then
      InvokeSwipeActions(CreateSwipeTriggerArgs(history, norm), swipeDirection)
    else
      []
  }

  /**
   * SwipeEventDetector.CallTouchHistoryEvaluation: only histories of two or
   * more samples reach the evaluator. What a finished touch reports is either
   * nothing or the three events of one swipe with a direction, ending with the
   * swipe's arguments; it reports them exactly when the swipe is accepted.
   */
  function CallTouchHistoryEvaluation(history: Trace, settings: Thresholds, screen: Screen, norm: Norm): (events: seq<Event>)
    requires |history| >= 1 && screen.Valid()
    ensures events != [] <==> SwipeAccepted(SwipeVector(history), settings, screen, norm)
    ensures events != [] ==>
      && |history| >= 2 && |events| == 3
      && events[0].OnSwipeDirectionDetected? && events[0].swipe != SwipeNone
      && events[1] == OnSwipeAction(events[0].swipe)
      && events[2] == OnSwipeEnded(CreateSwipeTriggerArgs(history, norm))
  {
    if |history| <= 1 then
      assert SwipeVector(history) == Zero;
      []
    else
      EvaluateEndedTouchHistory(history, settings, screen, norm)
  }

  /** The size guard changes nothing: a one-sample history has a zero vector, which has no direction. */
  lemma SizeGuardIsRedundant(history: Trace, settings: Thresholds, screen: Screen, norm: Norm)
    requires |history| >= 1 && screen.Valid()
    ensures CallTouchHistoryEvaluation(history, settings, screen, norm) == EvaluateEndedTouchHistory(history, settings, screen, norm)
  {
    if |history| == 1 {
      assert SwipeVector(history) == Zero;
    }
  }

  /** Only the end points matter: two traces with the same first and last position are reported alike. */
  lemma OnlyEndPointsMatter(h1: Trace, h2: Trace, settings: Thresholds, screen: Screen, norm: Norm)
    requires |h1| >= 1 && |h2| >= 1 && screen.Valid()
    requires First(h1).pos == First(h2).pos && Last(h1).pos == Last(h2).pos
    ensures EvaluateEndedTouchHistory(h1, settings, screen, norm) == EvaluateEndedTouchHistory(h2, settings, screen, norm)
  {
  }

  /** A swipe whose two axes move by the same amount is never reported, however long. */
  lemma DiagonalSwipeNeverReported(history: Trace, settings: Thresholds, screen: Screen, norm: Norm)
    requires |history| >= 1 && screen.Valid()
    requires Abs(SwipeVector(history).x) == Abs(SwipeVector(history).y)
    ensures EvaluateEndedTouchHistory(history, settings, screen, norm) == []
  {
  }

  /**
   * On a 1000 x 1000 screen with a 20 % horizontal minimum, a swipe from
   * (0, 500) to (250, 500) is reported as a right swipe and one to (100, 500) is not.
   */
  lemma HorizontalThresholdScenario(norm: Norm)
    ensures var settings := Defaults.(minHorizontalSwipeLength := 20.0);
      var screen := Screen(1000, 1000);
      var long := [Sample(0.0, Vec2(0.0, 500.0)), Sample(0.5, Vec2(250.0, 500.0))];
      var short := [Sample(0.0, Vec2(0.0, 500.0)), Sample(0.5, Vec2(100.0, 500.0))];
      && EvaluateEndedTouchHistory(long, settings, screen, norm)
         == [OnSwipeDirectionDetected(SwipeRight), OnSwipeAction(SwipeRight),
             OnSwipeEnded(SwipeArgs(Vec2(0.0, 500.0), Vec2(250.0, 500.0), 250.0, Vec2(250.0, 0.0)))]
      && EvaluateEndedTouchHistory(short, settings, screen, norm) == []
  {
    var settings := Defaults.(minHorizontalSwipeLength := 20.0);
    var screen := Screen(1000, 1000);
    var long := [Sample(0.0, Vec2(0.0, 500.0)), Sample(0.5, Vec2(250.0, 500.0))];
    var short := [Sample(0.0, Vec2(0.0, 500.0)), Sample(0.5, Vec2(100.0, 500.0))];
    assert SwipeVector(long) == Vec2(250.0, 0.0);
    assert norm(Vec2(250.0, 0.0)) == 250.0;
    assert SwipeVector(short) == Vec2(100.0, 0.0);
    assert norm(Vec2(100.0, 0.0)) == 100.0;
  }

  /**
   * The arguments of an ongoing swipe: from the position one frame ago to the
   * current one, ordered by the time stamps 0 and deltaTime, so that a negative
   * deltaTime swaps the end points.
   */
  function OngoingSwipeArgs(touch: Touch, norm: Norm): (args: InputArgs)
    ensures args.SwipeArgs? && IsVectorMovementArgs(args) && IsIntensityArgs(args)
    ensures args.movementVector == Sub(args.endPos, args.startPos)
    ensures args.intensity == norm(args.movementVector) == norm(touch.deltaPosition)
    ensures (if touch.deltaTime > 0.0 then args.endPos else args.startPos) == touch.position
    ensures {args.startPos, args.endPos} == {touch.position, Sub(touch.position, touch.deltaPosition)}
  {
    var previous := Sub(touch.position, touch.deltaPosition);
    if touch.deltaTime > 0.0 then
      SwipeArgs(previous, touch.position, norm(touch.deltaPosition), touch.deltaPosition)
    else
      SwipeArgs(touch.position, previous, norm(touch.deltaPosition), Neg(touch.deltaPosition))
  }

  /** The arguments of the simulated two-sample history are the ongoing swipe arguments. */
  lemma OngoingArgsOfTrace(touch: Touch, norm: Norm)
    requires touch.deltaTime != 0.0
    ensures var previous := Sub(touch.position, touch.deltaPosition);
      var history := if touch.deltaTime < 0.0 then [Sample(touch.deltaTime, touch.position), Sample(0.0, previous)]
                     else [Sample(0.0, previous), Sample(touch.deltaTime, touch.position)];
      CreateSwipeTriggerArgs(history, norm) == OngoingSwipeArgs(touch, norm)
  {
    if touch.deltaTime < 0.0 {
      BackToStart(touch.position, touch.deltaPosition);
    } else {
      assert Sub(touch.position, Sub(touch.position, touch.deltaPosition)) == touch.deltaPosition;
    }
  }

  /**
   * SwipeEventDetector.CallOngoingSwipe: builds a two-sample history
   * {0 -> position - delta, deltaTime -> position} and reports it, with no
   * direction or length check, to MobileInput.OnSwipeMoving and then to
   * OnSwipeDetected. A zero deltaTime makes the second Add throw.
   */
  method CallOngoingSwipe(touch: Touch, norm: Norm) returns (outcome: Emission)
    ensures outcome.Threw? <==> touch.deltaTime == 0.0
    ensures outcome.Threw? ==> outcome.error == DuplicateTimestamp(0.0)
    ensures outcome.Emitted? ==>
      var args := OngoingSwipeArgs(touch, norm);
      outcome.events == [OnSwipeMoving(args), OnSwipeDetected(args)]
    ensures outcome.Emitted? && touch.deltaTime > 0.0 ==>
      var args := outcome.events[0].args;
      args.startPos == Sub(touch.position, touch.deltaPosition) && args.endPos == touch.position
      && args.movementVector == touch.deltaPosition && args.intensity == norm(touch.deltaPosition)
  {
    // Simulate a touch history to create ongoing swipe arguments.
    var history := NewTouchHistory(0.0, touch.position);
    if ContainsKey(history, 0.0) {
      history := Remove(history, 0.0);
    }
    assert history == [];
    assert Times(history) == {};
    var previous := Sub(touch.position, touch.deltaPosition);
    var first := Insert(history, 0.0, previous);
    assert first.Some? && first.value == [Sample(0.0, previous)] + history;
    assert first.value == [Sample(0.0, previous)];
    var second := Insert(first.value, touch.deltaTime, touch.position);
    if second.None? {
      outcome := Threw(DuplicateTimestamp(touch.deltaTime));
      return;
    }
    InsertIntoSingle(Sample(0.0, previous), touch.deltaTime, touch.position);
    OngoingArgsOfTrace(touch, norm);
    var swipeArgs := CreateSwipeTriggerArgs(second.value, norm);
    outcome := Emitted([OnSwipeMoving(swipeArgs), OnSwipeDetected(swipeArgs)]);
  }
}
