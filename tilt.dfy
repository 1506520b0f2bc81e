/**
 * TiltEvaluator: classifies the device acceleration into at most one
 * horizontal and one vertical tilt direction, reports each classified
 * direction that passes its threshold, and reports the end of every tracked
 * tilt whose direction is no longer classified.
 */
module Tilt {
  import opened Geometry
  import opened Settings
  import opened Events

  /**
   * CalculateTiltDirections: the sign of each component, with zero giving no
   * direction on that axis. The source collects them in a fresh HashSet, which
   * enumerates in insertion order: the horizontal direction first.
   */
  function CalculateTiltDirections(acceleration: Vec2): (directions: seq<TiltDirection>)
    ensures TiltRight in directions <==> acceleration.x > 0.0
    ensures TiltLeft in directions <==> acceleration.x < 0.0
    ensures TiltForward in directions <==> acceleration.y > 0.0
    ensures TiltBackward in directions <==> acceleration.y < 0.0
    ensures TiltNone !in directions
    ensures |directions| <= 2
    ensures forall i, j :: 0 <= i < j < |directions| ==> directions[i] != directions[j]
    ensures |directions| == 2 ==> directions[0] in {TiltRight, TiltLeft} && directions[1] in {TiltForward, TiltBackward}
  {
    (if acceleration.x > 0.0 then [TiltRight] else if acceleration.x < 0.0 then [TiltLeft] else [])
    + (if acceleration.y > 0.0 then [TiltForward] else if acceleration.y < 0.0 then [TiltBackward] else [])
  }

  /** The classified directions as a set. */
  function Classified(acceleration: Vec2): set<TiltDirection> {
    set d | d in CalculateTiltDirections(acceleration)
  }

  /** Thresholds on the right side of zero on both axes, as the defaults are. */
  predicate SignedThresholds(settings: Thresholds) {
    settings.xTiltPosThreshold > 0.0 && settings.xTiltNegThreshold < 0.0
    && settings.yTiltPosThreshold > 0.0 && settings.yTiltNegThreshold < 0.0
  }

  /**
   * CheckIsTiltValid: the positive thresholds are reached from below, the
   * negative ones from above, both inclusively. NONE never passes, and with
   * signed thresholds only a classified direction can pass; so on a
   * classified direction the check only adds the threshold.
   */
  function CheckIsTiltValid(direction: TiltDirection, acceleration: Vec2, settings: Thresholds): (valid: bool)
    ensures valid ==> direction != TiltNone
    ensures SignedThresholds(settings) && valid ==> direction in CalculateTiltDirections(acceleration)
  {
    match direction
    case TiltRight => acceleration.x >= settings.xTiltPosThreshold
    case TiltLeft => acceleration.x <= settings.xTiltNegThreshold
    case TiltForward => acceleration.y >= settings.yTiltPosThreshold
    case TiltBackward => acceleration.y <= settings.yTiltNegThreshold
    case TiltNone => false
  }

  /** CreateTiltTriggerArs: the acceleration as movement vector, both positions zero. */
  function CreateTiltTriggerArgs(acceleration: Vec2): (args: InputArgs)
    ensures args.TiltArgs? && IsVectorMovementArgs(args)
    ensures args.movementVector == acceleration && args.startPos == Zero && args.endPos == Zero
  {
    TiltArgs(acceleration, Zero, Zero)
  }

  /** InvokeOngoingTiltDirectionAction: the per-direction ongoing event; nothing for NONE. */
  function OngoingTiltDirectionAction(direction: TiltDirection, tiltMovement: InputArgs): (events: seq<Event>)
    ensures direction == TiltNone ==> events == []
    ensures direction != TiltNone ==> events == [OnOngoingTiltToward(direction, tiltMovement)]
  {
    match direction
    case TiltRight => [OnOngoingTiltToward(TiltRight, tiltMovement)]
    case TiltLeft => [OnOngoingTiltToward(TiltLeft, tiltMovement)]
    case TiltForward => [OnOngoingTiltToward(TiltForward, tiltMovement)]
    case TiltBackward => [OnOngoingTiltToward(TiltBackward, tiltMovement)]
    case TiltNone => []
  }

  /** InvokeEndedTiltAction: the per-direction end event; nothing for NONE. */
  function EndedTiltAction(direction: TiltDirection): (events: seq<Event>)
    ensures direction == TiltNone ==> events == []
    ensures direction != TiltNone ==> events == [OnEndedTilt(direction)]
  {
    match direction
    case TiltRight => [OnEndedTilt(TiltRight)]
    case TiltLeft => [OnEndedTilt(TiltLeft)]
    case TiltForward => [OnEndedTilt(TiltForward)]
    case TiltBackward => [OnEndedTilt(TiltBackward)]
    case TiltNone => []
  }

  /** The per-direction ongoing events of the directions, in order, that pass the threshold. */
  function TowardEvents(directions: seq<TiltDirection>, acceleration: Vec2, settings: Thresholds): seq<Event>
    decreases |directions|
  {
    if |directions| == 0 then []
    else
      var d := directions[|directions| - 1];
      TowardEvents(directions[..|directions| - 1], acceleration, settings)
      + (if CheckIsTiltValid(d, acceleration, settings) then OngoingTiltDirectionAction(d, CreateTiltTriggerArgs(acceleration)) else [])
  }

  /** The directions that pass the threshold. */
  function Passing(directions: seq<TiltDirection>, acceleration: Vec2, settings: Thresholds): (passing: set<TiltDirection>)
    ensures forall d :: d in passing <==> d in directions && CheckIsTiltValid(d, acceleration, settings)
    decreases |directions|
  {
    if |directions| == 0 then {}
    else
      var d := directions[|directions| - 1];
      assert forall x :: x in directions <==> x in directions[..|directions| - 1] || x == d;
      Passing(directions[..|directions| - 1], acceleration, settings)
      + (if CheckIsTiltValid(d, acceleration, settings) then {d} else {})
  }

  /** Extending the prefix of the directions by one extends the events and the passing set by that direction's share. */
  lemma PrefixStep(directions: seq<TiltDirection>, i: nat, acceleration: Vec2, settings: Thresholds)
    requires i < |directions|
    ensures var valid := CheckIsTiltValid(directions[i], acceleration, settings);
      && TowardEvents(directions[..i + 1], acceleration, settings)
         == TowardEvents(directions[..i], acceleration, settings)
            + (if valid then OngoingTiltDirectionAction(directions[i], CreateTiltTriggerArgs(acceleration)) else [])
      && Passing(directions[..i + 1], acceleration, settings)
         == Passing(directions[..i], acceleration, settings) + (if valid then {directions[i]} else {})
  {
    assert directions[..i + 1][..i] == directions[..i];
  }

  /** What HandleOngoingTilts reports: the per-direction events, then OnOngoingTilt once if any direction passed. */
  function OngoingEventsOf(directions: seq<TiltDirection>, acceleration: Vec2, settings: Thresholds): seq<Event> {
    TowardEvents(directions, acceleration, settings)
    + (if Passing(directions, acceleration, settings) != {} then [OnOngoingTilt(CreateTiltTriggerArgs(acceleration))] else [])
  }

  /** The ongoing events of a frame. */
  function OngoingTiltEvents(acceleration: Vec2, settings: Thresholds): seq<Event> {
    OngoingEventsOf(CalculateTiltDirections(acceleration), acceleration, settings)
  }

  /** The directions tracked after a frame: the tracked ones still classified, and those that passed the threshold. */
  function NextTracked(previous: set<TiltDirection>, acceleration: Vec2, settings: Thresholds): set<TiltDirection> {
    (previous * Classified(acceleration)) + Passing(CalculateTiltDirections(acceleration), acceleration, settings)
  }

  /** The tracked directions whose tilt ends in this frame. */
  function Ended(previous: set<TiltDirection>, acceleration: Vec2): set<TiltDirection> {
    previous - Classified(acceleration)
  }

  /** One end event per direction of the set, in some order, and nothing else. */
  ghost predicate EndedExactly(events: seq<Event>, directions: set<TiltDirection>) {
    && (forall i, j :: 0 <= i < j < |events| ==> events[i] != events[j])
    && (forall i :: 0 <= i < |events| ==> events[i].OnEndedTilt? && events[i].tilt in directions)
    && (forall d :: d in directions ==> OnEndedTilt(d) in events)
  }

  /** The tracked set only ever holds classified directions, so never two opposite ones. */
  lemma TrackedAreClassified(previous: set<TiltDirection>, acceleration: Vec2, settings: Thresholds)
    ensures NextTracked(previous, acceleration, settings) <= Classified(acceleration)
    ensures !(TiltRight in NextTracked(previous, acceleration, settings) && TiltLeft in NextTracked(previous, acceleration, settings))
    ensures !(TiltForward in NextTracked(previous, acceleration, settings) && TiltBackward in NextTracked(previous, acceleration, settings))
    ensures TiltNone !in NextTracked(previous, acceleration, settings)
  {
  }

  /**
   * A tracked tilt that falls below its threshold but keeps its sign is
   * neither reported as ongoing nor ended: it stays tracked, silently.
   */
  lemma BelowThresholdStaysTracked(previous: set<TiltDirection>, acceleration: Vec2, settings: Thresholds)
    requires previous == {TiltRight} && acceleration.y == 0.0
    requires 0.0 < acceleration.x < settings.xTiltPosThreshold
    ensures Ended(previous, acceleration) == {}
    ensures OngoingTiltEvents(acceleration, settings) == []
    ensures NextTracked(previous, acceleration, settings) == previous
  {
    assert CalculateTiltDirections(acceleration) == [TiltRight];
    assert Classified(acceleration) == {TiltRight};
    assert Passing([TiltRight], acceleration, settings) == {};
    assert TowardEvents([TiltRight], acceleration, settings) == TowardEvents([], acceleration, settings);
  }

  /** The directions tracked after a sequence of frames. */
  function TrackedAfter(previous: set<TiltDirection>, accelerations: seq<Vec2>, settings: Thresholds): set<TiltDirection>
    decreases |accelerations|
  {
    if |accelerations| == 0 then previous
    else TrackedAfter(NextTracked(previous, accelerations[0], settings), accelerations[1..], settings)
  }

  /** Every direction whose end is reported in some frame of the sequence. */
  function EndedAlong(previous: set<TiltDirection>, accelerations: seq<Vec2>, settings: Thresholds): set<TiltDirection>
    decreases |accelerations|
  {
    if |accelerations| == 0 then {}
    else Ended(previous, accelerations[0])
         + EndedAlong(NextTracked(previous, accelerations[0], settings), accelerations[1..], settings)
  }

  /** A direction that is not tracked and never passes its threshold never ends and is never tracked. */
  lemma {:induction false} NeverValidNeverEnds(previous: set<TiltDirection>, accelerations: seq<Vec2>, settings: Thresholds, d: TiltDirection)
    requires d !in previous
    requires forall i :: 0 <= i < |accelerations| ==> !CheckIsTiltValid(d, accelerations[i], settings)
    ensures d !in EndedAlong(previous, accelerations, settings)
    ensures d !in TrackedAfter(previous, accelerations, settings)
    decreases |accelerations|
  {
    if |accelerations| > 0 {
      var next := NextTracked(previous, accelerations[0], settings);
      assert !CheckIsTiltValid(d, accelerations[0], settings);
      assert d !in next;
      forall i | 0 <= i < |accelerations[1..]| ensures !CheckIsTiltValid(d, accelerations[1..][i], settings) {
        assert accelerations[1..][i] == accelerations[i + 1];
      }
      NeverValidNeverEnds(next, accelerations[1..], settings, d);
    }
  }

  /** On the default thresholds, a right tilt of 0.5 is reported and tracked. */
  lemma RightTiltScenario(acceleration: Vec2)
    requires acceleration == Vec2(0.5, 0.0)
    ensures NextTracked({}, acceleration, Defaults) == {TiltRight}
    ensures OngoingTiltEvents(acceleration, Defaults)
         == [OnOngoingTiltToward(TiltRight, TiltArgs(acceleration, Zero, Zero)), OnOngoingTilt(TiltArgs(acceleration, Zero, Zero))]
  {
    assert CalculateTiltDirections(acceleration) == [TiltRight];
    assert Passing([TiltRight], acceleration, Defaults) == {TiltRight};
    assert TowardEvents([TiltRight], acceleration, Defaults)
        == TowardEvents([], acceleration, Defaults) + [OnOngoingTiltToward(TiltRight, TiltArgs(acceleration, Zero, Zero))];
  }

  /**
   * Easing back to 0.1 keeps the right tilt tracked without any event, since
   * 0.1 is still classified right; only a level device ends it.
   */
  lemma ReleaseScenario(eased: Vec2, level: Vec2)
    requires eased == Vec2(0.1, 0.0) && level == Vec2(0.0, 0.0)
    ensures Ended({TiltRight}, eased) == {} && OngoingTiltEvents(eased, Defaults) == []
    ensures NextTracked({TiltRight}, eased, Defaults) == {TiltRight}
    ensures Ended({TiltRight}, level) == {TiltRight} && OngoingTiltEvents(level, Defaults) == []
  {
    BelowThresholdStaysTracked({TiltRight}, eased, Defaults);
    assert CalculateTiltDirections(level) == [];
  }

  /** What one call of the as-written HandleEndedTilts leaves behind. */
  datatype EndedOutcome = EndedOutcome(events: seq<Event>, remaining: set<TiltDirection>, threw: bool)

  /**
   * HandleEndedTilts as written: `remainingActivePreviousTilts` is the very
   * HashSet being enumerated, so the first Remove invalidates the enumerator
   * and the next MoveNext throws InvalidOperationException, after one end
   * event. `order` is the enumeration order of the tracked set.
   */
  function HandleEndedTiltsAsWritten(order: seq<TiltDirection>, ongoing: set<TiltDirection>, tracked: set<TiltDirection>): (r: EndedOutcome)
    ensures |r.events| <= 1
    ensures r.remaining <= tracked
    decreases |order|
  {
    if |order| == 0 then EndedOutcome([], tracked, false)
    else if order[0] !in ongoing then EndedOutcome(EndedTiltAction(order[0]), tracked - {order[0]}, true)
    else HandleEndedTiltsAsWritten(order[1..], ongoing, tracked)
  }

  /**
   * Whatever the enumeration order, the as-written loop throws as soon as it
   * meets a tracked tilt that ended, after reporting and removing that one only.
   */
  lemma {:induction false} AsWrittenThrowsAtFirstEnd(order: seq<TiltDirection>, ongoing: set<TiltDirection>, tracked: set<TiltDirection>)
    requires forall i :: 0 <= i < |order| ==> order[i] in tracked
    requires TiltNone !in tracked
    ensures var r := HandleEndedTiltsAsWritten(order, ongoing, tracked);
      && (r.threw <==> exists i :: 0 <= i < |order| && order[i] !in ongoing)
      && (r.threw ==> exists i :: (0 <= i < |order| && order[i] !in ongoing
                                   && r.events == [OnEndedTilt(order[i])] && r.remaining == tracked - {order[i]}))
      && (!r.threw ==> r.events == [] && r.remaining == tracked)
    decreases |order|
  {
    if |order| > 0 {
      if order[0] in ongoing {
        AsWrittenThrowsAtFirstEnd(order[1..], ongoing, tracked);
        var r := HandleEndedTiltsAsWritten(order[1..], ongoing, tracked);
        if r.threw {
          var i :| 0 <= i < |order[1..]| && order[1..][i] !in ongoing
                   && r.events == [OnEndedTilt(order[1..][i])] && r.remaining == tracked - {order[1..][i]};
          assert order[i + 1] == order[1..][i];
        } else {
          forall i | 0 <= i < |order| ensures order[i] in ongoing {
            if i > 0 { assert order[i] == order[1..][i - 1]; }
          }
        }
      } else {
        assert order[0] in tracked;
      }
    }
  }

  /**
   * For an enumeration of the whole tracked set: the as-written loop throws
   * exactly when some tilt ended, and then reports one end however many ended.
   */
  lemma AsWrittenThrowsOnEveryEnd(order: seq<TiltDirection>, ongoing: set<TiltDirection>, tracked: set<TiltDirection>)
    requires (set d | d in order) == tracked && TiltNone !in tracked
    ensures var r := HandleEndedTiltsAsWritten(order, ongoing, tracked);
      && (r.threw <==> tracked - ongoing != {})
      && (r.threw ==> |r.events| == 1 && |r.remaining| == |tracked| - 1)
  {
    forall i | 0 <= i < |order| ensures order[i] in tracked {
      assert order[i] in order;
    }
    AsWrittenThrowsAtFirstEnd(order, ongoing, tracked);
    var r := HandleEndedTiltsAsWritten(order, ongoing, tracked);
    if tracked - ongoing != {} {
      var d :| d in tracked - ongoing;
      var i :| 0 <= i < |order| && order[i] == d;
    }
    if r.threw {
      var i :| 0 <= i < |order| && order[i] !in ongoing && r.remaining == tracked - {order[i]};
      assert order[i] in tracked;
    }
  }

  /**
   * The tracked right tilt with the device tilted left: the corrected loop
   * reports RIGHT ended and continues the frame; the as-written one throws.
   */
  lemma TiltReversalCounterexample(acceleration: Vec2)
    requires acceleration == Vec2(-0.5, 0.0)
    ensures Ended({TiltRight}, acceleration) == {TiltRight}
    ensures HandleEndedTiltsAsWritten([TiltRight], Classified(acceleration), {TiltRight})
         == EndedOutcome([OnEndedTilt(TiltRight)], {}, true)
  {
    assert CalculateTiltDirections(acceleration) == [TiltLeft];
    assert Classified(acceleration) == {TiltLeft};
  }

  /** The state of the tilt classifier; the settings object is shared with the rest of the module. */
  class TiltEvaluator {
    var loadedSettingsData: MobileInputSettingsData
    var previousTilts: set<TiltDirection>

    /** Only real directions are ever tracked. */
    ghost predicate Valid()
      reads this
    {
      TiltNone !in previousTilts
    }

    /** The static state before any frame, once Setup has run. */
    constructor (settingsData: MobileInputSettingsData)
      ensures loadedSettingsData == settingsData && previousTilts == {}
      ensures Valid()
    {
      loadedSettingsData := settingsData;
      previousTilts := {};
    }

    /** Setup: replaces the settings, keeps the tracked tilts. */
    method Setup(p_loadedSettingsData: MobileInputSettingsData)
      modifies this
      ensures loadedSettingsData == p_loadedSettingsData && previousTilts == old(previousTilts)
    {
      loadedSettingsData := p_loadedSettingsData;
    }

    /**
     * EvaluateOngoingTilt: the end events of the tracked tilts no longer
     * classified, then the ongoing events of this frame; the tracked set
     * becomes NextTracked.
     */
    method EvaluateOngoingTilt(acceleration: Vec2) returns (events: seq<Event>)
      requires Valid()
      modifies this
      ensures Valid()
      ensures loadedSettingsData == old(loadedSettingsData)
      ensures previousTilts == NextTracked(old(previousTilts), acceleration, loadedSettingsData.Data())
      ensures exists k :: (0 <= k <= |events|
                            && EndedExactly(events[..k], Ended(old(previousTilts), acceleration))
                            && events[k..] == OngoingTiltEvents(acceleration, loadedSettingsData.Data()))
    {
      var directions := CalculateTiltDirections(acceleration);
      var ended := HandleEndedTilts(directions);
      var ongoing := HandleOngoingTilts(acceleration, directions);
      events := ended + ongoing;
      assert events[..|ended|] == ended && events[|ended|..] == ongoing;
    }

    /**
     * HandleEndedTilts, as the source evidently intends it: every tracked
     * direction that is not among the ongoing ones is reported as ended and
     * dropped. The HashSet's enumeration order is left open.
     */
    method HandleEndedTilts(ongoingTiltDirections: seq<TiltDirection>) returns (events: seq<Event>)
      requires Valid()
      modifies this
      ensures Valid()
      ensures loadedSettingsData == old(loadedSettingsData)
      ensures previousTilts == old(previousTilts) * (set d | d in ongoingTiltDirections)
      ensures EndedExactly(events, old(previousTilts) - (set d | d in ongoingTiltDirections))
    {
      var ongoing := set d | d in ongoingTiltDirections;
      var toVisit := previousTilts;
      var remainingActivePreviousTilts := previousTilts;
      events := [];
      while toVisit != {}
        invariant toVisit <= old(previousTilts)
        invariant remainingActivePreviousTilts == old(previousTilts) - ((old(previousTilts) - toVisit) - ongoing)
        invariant EndedExactly(events, (old(previousTilts) - toVisit) - ongoing)
        decreases toVisit
      {
        var previousTilt :| previousTilt in toVisit;
        if previousTilt !in ongoing {
          events := events + EndedTiltAction(previousTilt);
          remainingActivePreviousTilts := remainingActivePreviousTilts - {previousTilt};
        }
        toVisit := toVisit - {previousTilt};
      }
      previousTilts := remainingActivePreviousTilts;
    }

    /** UpdatePreviousOngoingTilts: tracks the direction. */
    method UpdatePreviousOngoingTilts(ongoingTiltDirection: TiltDirection)
      modifies this
      ensures previousTilts == old(previousTilts) + {ongoingTiltDirection}
      ensures loadedSettingsData == old(loadedSettingsData)
    {
      if ongoingTiltDirection !in previousTilts {
        previousTilts := previousTilts + {ongoingTiltDirection};
      }
    }

    /**
     * HandleOngoingTilts: each classified direction that passes its threshold
     * is reported and tracked; OnOngoingTilt follows once if any passed.
     */
    method HandleOngoingTilts(acceleration: Vec2, ongoingTiltDirections: seq<TiltDirection>) returns (events: seq<Event>)
      requires Valid()
      modifies this
      ensures Valid()
      ensures loadedSettingsData == old(loadedSettingsData)
      ensures previousTilts == old(previousTilts) + Passing(ongoingTiltDirections, acceleration, loadedSettingsData.Data())
      ensures events == OngoingEventsOf(ongoingTiltDirections, acceleration, loadedSettingsData.Data())
    {
      var settings := loadedSettingsData.Data();
      var tiltMovement := CreateTiltTriggerArgs(acceleration);
      var isAnyTiltValid := false;
      events := [];
      for i := 0 to |ongoingTiltDirections|
        invariant loadedSettingsData == old(loadedSettingsData) && settings == loadedSettingsData.Data()
        invariant events == TowardEvents(ongoingTiltDirections[..i], acceleration, settings)
        invariant previousTilts == old(previousTilts) + Passing(ongoingTiltDirections[..i], acceleration, settings)
        invariant isAnyTiltValid <==> Passing(ongoingTiltDirections[..i], acceleration, settings) != {}
      {
        var direction := ongoingTiltDirections[i];
        PrefixStep(ongoingTiltDirections, i, acceleration, settings);
        if CheckIsTiltValid(direction, acceleration, settings) {
          isAnyTiltValid := true;
          events := events + OngoingTiltDirectionAction(direction, tiltMovement);
          UpdatePreviousOngoingTilts(direction);
        }
      }
      assert ongoingTiltDirections[..|ongoingTiltDirections|] == ongoingTiltDirections;
      if isAnyTiltValid {
        events := events + [OnOngoingTilt(tiltMovement)];
      }
    }
  }
}
