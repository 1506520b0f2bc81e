/**
 * MobileInputHelper: casts between the argument interfaces and the direction,
 * magnitude and focus point of an argument record. C# picks an overload by the
 * static type of its argument; each overload is a function of its own here,
 * named after the interface it takes, and the ones that take a narrower
 * interface require the record to implement it.
 */
module Helper {
  import opened Geometry
  import opened Optional
  import opened Events
  import opened Engine
  import opened Traces
  import Swipe
  import Tilt
  import Pinch

  /** `inputArgs as IDeltaMovementInputArgs` */
  function CastToDeltaMovementArgs(inputArgs: InputArgs): (r: Option<InputArgs>)
    ensures r.Some? <==> IsDeltaMovementArgs(inputArgs)
    ensures r.Some? ==> r.value == inputArgs
  {
    if IsDeltaMovementArgs(inputArgs) then Some(inputArgs) else None
  }

  /** `inputArgs as IVectorMovementInputArgs` */
  function CastToVectorMovementArgs(inputArgs: InputArgs): (r: Option<InputArgs>)
    ensures r.Some? <==> IsVectorMovementArgs(inputArgs)
    ensures r.Some? ==> r.value == inputArgs
  {
    if IsVectorMovementArgs(inputArgs) then Some(inputArgs) else None
  }

  /** `inputArgs as IIntensityTriggerArgs` */
  function CastToIntensityArgs(inputArgs: InputArgs): (r: Option<InputArgs>)
    ensures r.Some? <==> IsIntensityArgs(inputArgs)
    ensures r.Some? ==> r.value == inputArgs
  {
    if IsIntensityArgs(inputArgs) then Some(inputArgs) else None
  }

  /** GetDirection(IPositionalInputArgs): the vector that leads from the start to the end. */
  function GetDirection(args: InputArgs): (d: Vec2)
    ensures Add(args.startPos, d) == args.endPos
    ensures d == Zero <==> args.startPos == args.endPos
  {
    Sub(args.endPos, args.startPos)
  }

  /** GetDirection(IDeltaMovementInputArgs): zero when the delta is zero or the record has no extent. */
  function GetDirectionOfDeltaMovement(args: InputArgs): (d: Vec2)
    requires IsDeltaMovementArgs(args)
    ensures d == Zero <==> args.deltaMovement == 0.0 || args.startPos == args.endPos
  {
    ScaleIsZero(Sub(args.endPos, args.startPos), args.deltaMovement);
    Scale(Sub(args.endPos, args.startPos), args.deltaMovement)
  }

  /** GetDirection(IIntensityTriggerArgs): zero when the intensity is zero or the record has no extent. */
  function GetDirectionOfIntensity(args: InputArgs): (d: Vec2)
    requires IsIntensityArgs(args)
    ensures d == Zero <==> args.intensity == 0.0 || args.startPos == args.endPos
  {
    ScaleIsZero(Sub(args.endPos, args.startPos), args.intensity);
    Scale(Sub(args.endPos, args.startPos), args.intensity)
  }

  /** GetDirection(IVectorMovementInputArgs) */
  function GetDirectionOfVectorMovement(args: InputArgs): Vec2
    requires IsVectorMovementArgs(args)
  {
    args.movementVector
  }

  /** GetMagnitude(IPositionalInputArgs): the distance from the start to the end. */
  function GetMagnitude(args: InputArgs, norm: Norm): (m: real)
    ensures m >= 0.0
    ensures m == 0.0 <==> args.startPos == args.endPos
  {
    norm(GetDirection(args))
  }

  /** GetMagnitude(IDeltaMovementInputArgs) */
  function GetMagnitudeOfDeltaMovement(args: InputArgs): real
    requires IsDeltaMovementArgs(args)
  {
    args.deltaMovement
  }

  /**
   * GetMagnitude(IIntensityTriggerArgs): the intensity enters twice, once
   * through the scaled direction (as its absolute value) and once as a factor,
   * so the result is negative exactly for a negative intensity on a record
   * with extent.
   */
  function GetMagnitudeOfIntensity(args: InputArgs, norm: Norm): (m: real)
    requires IsIntensityArgs(args)
    ensures m == GetMagnitude(args, norm) * Abs(args.intensity) * args.intensity
    ensures m < 0.0 <==> args.intensity < 0.0 && args.startPos != args.endPos
  {
    NormOfScale(GetDirection(args), args.intensity, norm);
    ScaledLengthTimesFactor(norm(GetDirectionOfIntensity(args)), GetMagnitude(args, norm), args.intensity);
    norm(GetDirectionOfIntensity(args)) * args.intensity
  }

  /** A length scaled by |k|, then multiplied by k: negative exactly for a negative k and a non-zero length. */
  lemma ScaledLengthTimesFactor(scaled: real, length: real, k: real)
    requires length >= 0.0 && scaled == Abs(k) * length
    ensures scaled * k == length * Abs(k) * k
    ensures scaled * k < 0.0 <==> k < 0.0 && length != 0.0
  {
    if k < 0.0 && length != 0.0 {
      assert scaled > 0.0;
      assert scaled * (-k) > 0.0;
    }
  }

  /** GetMagnitude(IVectorMovementInputArgs): the length of the movement vector. */
  function GetMagnitudeOfVectorMovement(args: InputArgs, norm: Norm): (m: real)
    requires IsVectorMovementArgs(args)
    ensures m >= 0.0
    ensures m == 0.0 <==> args.movementVector == Zero
  {
    norm(args.movementVector)
  }

  /**
   * GetFocusPoint(IPositionalInputArgs): the direction is scaled by its own
   * length, so the point lies on the ray from the start through the end, the
   * square of the start-to-end distance away from the start.
   */
  function GetFocusPoint(args: InputArgs, norm: Norm): (p: Vec2)
    ensures exists c :: c >= 0.0 && Sub(p, args.startPos) == Scale(GetDirection(args), c)
    ensures norm(Sub(p, args.startPos)) == GetMagnitude(args, norm) * GetMagnitude(args, norm)
    ensures p == args.startPos <==> args.startPos == args.endPos
  {
    var offset := Scale(GetDirection(args), GetMagnitude(args, norm));
    NormOfScale(GetDirection(args), GetMagnitude(args, norm), norm);
    ScaleIsZero(GetDirection(args), GetMagnitude(args, norm));
    assert Sub(Add(args.startPos, offset), args.startPos) == offset;
    Add(args.startPos, offset)
  }

  /** GetFocusPoint(IDeltaMovementInputArgs): the start itself exactly when the delta is zero or the record has no extent. */
  function GetFocusPointOfDeltaMovement(args: InputArgs): (p: Vec2)
    requires IsDeltaMovementArgs(args)
    ensures p == args.startPos <==> args.deltaMovement == 0.0 || args.startPos == args.endPos
  {
    ScaleIsZero(GetDirectionOfDeltaMovement(args), args.deltaMovement);
    Add(args.startPos, Scale(GetDirectionOfDeltaMovement(args), args.deltaMovement))
  }

  /** GetFocusPoint(IIntensityTriggerArgs): the start itself exactly when the intensity is zero or the record has no extent. */
  function GetFocusPointOfIntensity(args: InputArgs): (p: Vec2)
    requires IsIntensityArgs(args)
    ensures p == args.startPos <==> args.intensity == 0.0 || args.startPos == args.endPos
  {
    ScaleIsZero(GetDirectionOfIntensity(args), args.intensity);
    Add(args.startPos, Scale(GetDirectionOfIntensity(args), args.intensity))
  }

  /**
   * GetFocusPoint(IVectorMovementInputArgs): the movement vector scaled by half
   * its own length, so the point lies along the movement vector, half its
   * squared length away from the start.
   */
  function GetFocusPointOfVectorMovement(args: InputArgs, norm: Norm): (p: Vec2)
    requires IsVectorMovementArgs(args)
    ensures exists c :: c >= 0.0 && Sub(p, args.startPos) == Scale(args.movementVector, c)
    ensures norm(Sub(p, args.startPos)) == norm(args.movementVector) * norm(args.movementVector) / 2.0
  {
    var k := GetMagnitudeOfVectorMovement(args, norm) / 2.0;
    NormOfScale(args.movementVector, k, norm);
    assert Sub(Add(args.startPos, Scale(args.movementVector, k)), args.startPos) == Scale(args.movementVector, k);
    Add(args.startPos, Scale(args.movementVector, k))
  }

  /** A record whose start and end coincide (every tap and every tilt) has no positional direction, length or offset. */
  lemma PointArgsHaveNoDirection(args: InputArgs, norm: Norm)
    requires args.startPos == args.endPos
    ensures GetDirection(args) == Zero
    ensures GetMagnitude(args, norm) == 0.0
    ensures GetFocusPoint(args, norm) == args.startPos
  {
  }

  /**
   * The positional focus point lies farther from the start than the end does
   * exactly when the start-to-end distance exceeds 1; for shorter distances it
   * lies between start and end.
   */
  lemma PositionalFocusPointPassesEnd(args: InputArgs, norm: Norm)
    ensures norm(Sub(GetFocusPoint(args, norm), args.startPos)) > GetMagnitude(args, norm)
            <==> GetMagnitude(args, norm) > 1.0
  {
    var m := GetMagnitude(args, norm);
    assert norm(Sub(GetFocusPoint(args, norm), args.startPos)) == m * m;
    SquareExceeds(m);
  }

  /** The positional focus point is the end itself exactly when the start-to-end distance is 1 or zero. */
  lemma PositionalFocusPointAtEnd(args: InputArgs, norm: Norm)
    ensures GetFocusPoint(args, norm) == args.endPos
            <==> GetMagnitude(args, norm) == 1.0 || args.startPos == args.endPos
  {
    var d, m := GetDirection(args), GetMagnitude(args, norm);
    var s, e := args.startPos, args.endPos;
    ScaleIsIdentity(d, m);
    assert e == Add(s, d);
    assert GetFocusPoint(args, norm) == Add(s, Scale(d, m));
    AddCancels(s, Scale(d, m), d);
  }

  /** A nonnegative number is smaller than its square exactly when it exceeds 1. */
  lemma SquareExceeds(m: real)
    requires m >= 0.0
    ensures m * m > m <==> m > 1.0
  {
    if m > 1.0 {
      assert m * m - m == m * (m - 1.0);
      assert m * (m - 1.0) > 0.0;
    } else {
      assert m - m * m == m * (1.0 - m);
      assert m * (1.0 - m) >= 0.0;
    }
  }

  /**
   * The delta and intensity overloads scale the start-to-end vector twice: the
   * direction already carries one factor k, and the focus point multiplies by k again.
   */
  lemma FocusPointScalesBySquare(args: InputArgs)
    requires IsDeltaMovementArgs(args) || IsIntensityArgs(args)
    ensures IsDeltaMovementArgs(args) ==>
      GetFocusPointOfDeltaMovement(args)
        == Add(args.startPos, Scale(GetDirection(args), args.deltaMovement * args.deltaMovement))
    ensures IsIntensityArgs(args) ==>
      GetFocusPointOfIntensity(args)
        == Add(args.startPos, Scale(GetDirection(args), args.intensity * args.intensity))
  {
  }

  /**
   * The vector focus point is the end of the movement vector only when that
   * vector has length 2 or is zero; in general it is not the middle.
   */
  lemma VectorFocusPointIsScaledByLength(args: InputArgs, norm: Norm)
    requires IsVectorMovementArgs(args)
    ensures GetFocusPointOfVectorMovement(args, norm) == Add(args.startPos, args.movementVector)
            <==> norm(args.movementVector) == 2.0 || args.movementVector == Zero
  {
    var v := args.movementVector;
    var k := norm(v) / 2.0;
    ScaleIsIdentity(v, k);
    assert Add(args.startPos, Scale(v, k)) == Add(args.startPos, v) <==> Scale(v, k) == v;
  }

  /**
   * On the arguments of a swipe, whose movement vector is the start-to-end
   * vector and whose intensity is its length, the vector overloads agree with
   * the positional ones, and the intensity magnitude is the cube of the length.
   */
  lemma SwipeOverloadsAgree(history: Trace, norm: Norm)
    requires |history| >= 1
    ensures var a := Swipe.CreateSwipeTriggerArgs(history, norm);
      && GetDirectionOfVectorMovement(a) == GetDirection(a)
      && GetMagnitudeOfVectorMovement(a, norm) == GetMagnitude(a, norm) == a.intensity
      && GetMagnitudeOfIntensity(a, norm) == a.intensity * a.intensity * a.intensity
  {
    var a := Swipe.CreateSwipeTriggerArgs(history, norm);
    assert Abs(a.intensity) == a.intensity;
  }

  /**
   * On the arguments of a tilt, whose positions are both zero, the positional
   * overloads see nothing while the vector overloads see the acceleration.
   */
  lemma TiltOverloadsDiffer(acceleration: Vec2, norm: Norm)
    ensures GetDirection(Tilt.CreateTiltTriggerArgs(acceleration)) == Zero
    ensures GetMagnitude(Tilt.CreateTiltTriggerArgs(acceleration), norm) == 0.0
    ensures GetDirectionOfVectorMovement(Tilt.CreateTiltTriggerArgs(acceleration)) == acceleration
    ensures GetMagnitudeOfVectorMovement(Tilt.CreateTiltTriggerArgs(acceleration), norm) == norm(acceleration)
  {
    var a := Tilt.CreateTiltTriggerArgs(acceleration);
    assert a.movementVector == acceleration && a.startPos == a.endPos;
    PointArgsHaveNoDirection(a, norm);
  }

  /**
   * On the arguments of a pinch, the delta overload of GetMagnitude is
   * negative exactly when the fingers closed in, and positive exactly when
   * they moved apart.
   */
  lemma ClosingPinchHasNegativeMagnitude(touchZero: Touch, touchOne: Touch, norm: Norm)
    ensures var a := Pinch.EvaluateOngoingPinch(touchZero, touchOne, norm)[0].args;
      var before := norm(Pinch.PreviousSpan(touchZero, touchOne));
      var after := norm(Pinch.CurrentSpan(touchZero, touchOne));
      && (GetMagnitudeOfDeltaMovement(a) < 0.0 <==> after < before)
      && (GetMagnitudeOfDeltaMovement(a) > 0.0 <==> after > before)
  {
  }
}
