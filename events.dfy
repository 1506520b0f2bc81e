/**
 * What the classifier reports: the argument records handed to listeners, the
 * gesture directions, the events (one constructor per static Action that the
 * evaluators invoke) and the exceptions that abort a frame.
 */
module Events {
  import opened Geometry

  /** SwipeDirection { LEFT, RIGHT, UP, DOWN, NONE } */
  datatype SwipeDirection = SwipeLeft | SwipeRight | SwipeUp | SwipeDown | SwipeNone

  /** TiltDirection { RIGHT, LEFT, FORWARD, BACKWARD, NONE } */
  datatype TiltDirection = TiltRight | TiltLeft | TiltForward | TiltBackward | TiltNone

  /**
   * The argument records. Which interfaces a record implements is given by the
   * predicates below: every record is positional (StartPos, EndPos).
   */
  datatype InputArgs =
    | SwipeArgs(startPos: Vec2, endPos: Vec2, intensity: real, movementVector: Vec2)
    | TapArgs(startPos: Vec2, endPos: Vec2)
    | PinchArgs(deltaMovement: real, startPos: Vec2, endPos: Vec2, intensity: real)
    | TiltArgs(movementVector: Vec2, startPos: Vec2, endPos: Vec2)
    | BaseArgs(startPos: Vec2, endPos: Vec2)

  /** IDeltaMovementInputArgs */
  predicate IsDeltaMovementArgs(a: InputArgs) { a.PinchArgs? }

  /** IIntensityTriggerArgs */
  predicate IsIntensityArgs(a: InputArgs) { a.SwipeArgs? || a.PinchArgs? }

  /** IVectorMovementInputArgs */
  predicate IsVectorMovementArgs(a: InputArgs) { a.SwipeArgs? || a.TiltArgs? }

  datatype Event =
    | OnTapDetected(args: InputArgs)                           // TapEvaluator.OnTapDetected
    | OnSwipeDirectionDetected(swipe: SwipeDirection)          // SwipeEvaluator.On{Left,Right,Up,Down}SwipeDetected
    | OnSwipeAction(swipe: SwipeDirection)                     // MobileInput.OnSwipe{Left,Right,Up,Down}
    | OnSwipeEnded(args: InputArgs)                            // SwipeEvaluator.OnSwipeEnded
    | OnSwipeMoving(args: InputArgs)                           // MobileInput.OnSwipeMoving
    | OnSwipeDetected(args: InputArgs)                         // SwipeEventDetector.OnSwipeDetected
    | OnPinchDetected(args: InputArgs)                         // PinchEvaluator.OnPinchDetected
    | OnOngoingTiltToward(tilt: TiltDirection, args: InputArgs) // TiltEvaluator.OnOngoingTilt{Right,Left,Forward,Backward}
    | OnOngoingTilt(args: InputArgs)                           // TiltEvaluator.OnOngoingTilt
    | OnEndedTilt(tilt: TiltDirection)                         // TiltEvaluator.OnEndedTilt{Right,Left,Forward,Backward}

  /** The exceptions that can escape a frame. */
  datatype InputError =
    | DuplicateBegin(fingerId: int)       // Dictionary.Add on a finger id that is already tracked
    | DuplicateTimestamp(time: real)      // SortedDictionary.Add on a time stamp already in the trace
    | UnknownFinger(fingerId: int)        // the dictionary lookup of an ended finger that is not tracked

  /** What an evaluator does: invoke events, or throw before invoking any. */
  datatype Emission = Emitted(events: seq<Event>) | Threw(error: InputError)
}
