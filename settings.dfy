/**
 * MobileInputSettingsData: the eight thresholds the classifier reads, their
 * defaults and declared ranges, and OverrideData.
 */
module Settings {
  /**
   * maxTapDuration defaults to (float)double.MaxValue, which overflows to
   * +infinity as a float; every other threshold is an ordinary number.
   */
  datatype Limit = Finite(value: real) | PositiveInfinity

  /** d < limit, with every number below +infinity. */
  predicate Below(d: real, limit: Limit) {
    limit.PositiveInfinity? || d < limit.value
  }

  /** A snapshot of the eight fields. */
  datatype Thresholds = Thresholds(
    minHorizontalSwipeLength: real,
    minVerticalSwipeLength: real,
    minTapDuration: real,
    maxTapDuration: Limit,
    xTiltPosThreshold: real,
    xTiltNegThreshold: real,
    yTiltPosThreshold: real,
    yTiltNegThreshold: real)

  /** The field initialisers. */
  const Defaults := Thresholds(0.0, 0.0, 0.0, PositiveInfinity, 0.4, -0.4, 0.4, -0.4)

  /**
   * The [Range] and [Min] attributes. The inspector clamps what is typed into
   * it; nothing checks an assignment, so they are not an invariant of the class.
   */
  predicate WithinDeclaredRanges(s: Thresholds) {
    && 0.0 <= s.minHorizontalSwipeLength <= 100.0
    && 0.0 <= s.minVerticalSwipeLength <= 100.0
    && 0.0 <= s.minTapDuration
    && (s.maxTapDuration.Finite? ==> 0.0 <= s.maxTapDuration.value)
    && -1.0 <= s.xTiltPosThreshold <= 1.0
    && -1.0 <= s.xTiltNegThreshold <= 1.0
    && -1.0 <= s.yTiltPosThreshold <= 1.0
    && -1.0 <= s.yTiltNegThreshold <= 1.0
  }

  /** The snapshot OverrideData leaves behind: swipe and tap fields from the argument, tilt fields kept. */
  function Overridden(current: Thresholds, incoming: Thresholds): (r: Thresholds)
    ensures r.minHorizontalSwipeLength == incoming.minHorizontalSwipeLength
    ensures r.minVerticalSwipeLength == incoming.minVerticalSwipeLength
    ensures r.minTapDuration == incoming.minTapDuration
    ensures r.maxTapDuration == incoming.maxTapDuration
    ensures r.xTiltPosThreshold == current.xTiltPosThreshold && r.xTiltNegThreshold == current.xTiltNegThreshold
    ensures r.yTiltPosThreshold == current.yTiltPosThreshold && r.yTiltNegThreshold == current.yTiltNegThreshold
  {
    current.(minHorizontalSwipeLength := incoming.minHorizontalSwipeLength,
             minVerticalSwipeLength := incoming.minVerticalSwipeLength,
             minTapDuration := incoming.minTapDuration,
             maxTapDuration := incoming.maxTapDuration)
  }

  /** Overriding twice with the same data is overriding once. */
  lemma OverrideIdempotent(current: Thresholds, incoming: Thresholds)
    ensures Overridden(Overridden(current, incoming), incoming) == Overridden(current, incoming)
  {
  }

  /** The defaults respect the declared ranges, and accept every tap longer than zero seconds. */
  lemma DefaultsWithinDeclaredRanges()
    ensures WithinDeclaredRanges(Defaults)
    ensures forall d :: d > 0.0 ==> Defaults.minTapDuration < d && Below(d, Defaults.maxTapDuration)
  {
  }

  class MobileInputSettingsData {
    var minHorizontalSwipeLength: real
    var minVerticalSwipeLength: real
    var minTapDuration: real
    var maxTapDuration: Limit
    var xTiltPosThreshold: real
    var xTiltNegThreshold: real
    var yTiltPosThreshold: real
    var yTiltNegThreshold: real

    /** The current values of the eight fields. */
    function Data(): Thresholds
      reads this
    {
      Thresholds(minHorizontalSwipeLength, minVerticalSwipeLength, minTapDuration, maxTapDuration,
                 xTiltPosThreshold, xTiltNegThreshold, yTiltPosThreshold, yTiltNegThreshold)
    }

    /** A new asset holds the field initialisers. */
    constructor ()
      ensures Data() == Defaults
    {
      minHorizontalSwipeLength := 0.0;
      minVerticalSwipeLength := 0.0;
      minTapDuration := 0.0;
      maxTapDuration := PositiveInfinity;
      xTiltPosThreshold := 0.4;
      xTiltNegThreshold := -0.4;
      yTiltPosThreshold := 0.4;
      yTiltNegThreshold := -0.4;
    }

    /** Copies the swipe and tap thresholds of the argument into this asset. */
    method OverrideData(newSettingsData: MobileInputSettingsData)
      modifies this
      ensures Data() == Overridden(old(Data()), old(newSettingsData.Data()))
    {
      minHorizontalSwipeLength := newSettingsData.minHorizontalSwipeLength;
      minVerticalSwipeLength := newSettingsData.minVerticalSwipeLength;
      minTapDuration := newSettingsData.minTapDuration;
      maxTapDuration := newSettingsData.maxTapDuration;
    }
  }
}
