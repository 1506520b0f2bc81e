/**
 * MobileInput: once per frame, tracks the device acceleration, runs the tilt
 * classifier, appends the frame's sample to the trace of every tracked touch,
 * and dispatches every touch by its phase: a new trace on Began, tap and swipe
 * evaluation and removal on Ended, removal on Canceled, an ongoing swipe on
 * Moved. With exactly two touches on the screen it also evaluates a pinch.
 *
 * Input.touches, Time.realtimeSinceStartup, the screen size and the device
 * acceleration are parameters of Process. An exception aborts the rest of
 * the frame and keeps the changes made before it.
 */
module Input {
  import opened Geometry
  import opened Optional
  import opened Engine
  import opened Traces
  import opened Settings
  import opened Events
  import Swipe
  import Tap
  import Pinch
  import Tilt

  /** The touchHistory dictionary: finger id to that finger's trace. */
  type Store = map<int, Trace>

  /** Every tracked trace holds at least its begin sample, in time order. */
  ghost predicate WellFormedStore(store: Store) {
    forall id :: id in store ==> |store[id]| >= 1 && Sorted(store[id])
  }

  /** The store after a step, the events it invoked, and the exception that ended it, if any. */
  datatype Step = Step(store: Store, events: seq<Event>, error: Option<InputError>)

  /**
   * CallEndedTouchEvaluations: the tap evaluation, then the swipe evaluation,
   * of the finished trace. A tap can only come first, and does exactly when
   * the tap is valid; everything after it belongs to one swipe.
   */
  function EndedTouchEvents(history: Trace, settings: Thresholds, screen: Screen, norm: Norm): (events: seq<Event>)
    requires |history| >= 1 && screen.Valid()
    ensures |events| <= 4
    ensures |events| > 0 && events[0] == OnTapDetected(TapArgs(Last(history).pos, Last(history).pos))
            <==> Tap.IsTapValid(history, settings)
    ensures forall i :: 0 <= i < |events| ==>
      if i == 0 && Tap.IsTapValid(history, settings) then events[i].OnTapDetected?
      else events[i].OnSwipeDirectionDetected? || events[i].OnSwipeAction? || events[i].OnSwipeEnded?
    ensures (|events| == 3 || |events| == 4) <==> Swipe.SwipeAccepted(Swipe.SwipeVector(history), settings, screen, norm)
  {
    var tap := Tap.EvaluateEndedTouchHistory(history, settings);
    var swipe := Swipe.CallTouchHistoryEvaluation(history, settings, screen, norm);
    assert swipe == [] || !swipe[0].OnTapDetected?;
    tap + swipe
  }

  /** The body of TrackTouches for one touch: a tracked finger gets the sample (time, position). */
  function TrackOne(store: Store, touch: Touch, time: real): (r: Step)
    requires WellFormedStore(store)
    ensures WellFormedStore(r.store) && r.events == [] && r.store.Keys == store.Keys
    ensures r.error.Some? <==> touch.fingerId in store && time in Times(store[touch.fingerId])
    ensures r.error.Some? ==> r.error == Some(DuplicateTimestamp(time)) && r.store == store
    ensures r.error.None? && touch.fingerId in store ==>
      r.store == store[touch.fingerId := r.store[touch.fingerId]]
      && Times(r.store[touch.fingerId]) == Times(store[touch.fingerId]) + {time}
      && multiset(r.store[touch.fingerId]) == multiset(store[touch.fingerId]) + multiset{Sample(time, touch.position)}
    ensures touch.fingerId !in store ==> r == Step(store, [], None)
  {
    var id := touch.fingerId;
    if id in store then
      match Insert(store[id], time, touch.position)
      case None => Step(store, [], Some(DuplicateTimestamp(time)))
      case Some(trace) => Step(store[id := trace], [], None)
    else
      Step(store, [], None)
  }

  /** The finger ids of the touches. */
  function FingerIds(touches: seq<Touch>): (ids: set<int>)
    ensures forall k :: 0 <= k < |touches| ==> touches[k].fingerId in ids
    decreases |touches|
  {
    if |touches| == 0 then {} else {touches[0].fingerId} + FingerIds(touches[1..])
  }

  /** A finger that no touch carries is not among the finger ids. */
  lemma {:induction false} AbsentFinger(touches: seq<Touch>, id: int)
    requires forall k :: 0 <= k < |touches| ==> touches[k].fingerId != id
    ensures id !in FingerIds(touches)
    decreases |touches|
  {
    if |touches| > 0 {
      var rest := touches[1..];
      forall k | 0 <= k < |rest| ensures rest[k].fingerId != id {
        assert rest[k] == touches[k + 1];
      }
      AbsentFinger(rest, id);
    }
  }

  /** TrackTouches: TrackOne for each touch in order, stopping at the first exception. */
  function TrackAll(store: Store, touches: seq<Touch>, time: real): (r: Step)
    requires WellFormedStore(store)
    ensures WellFormedStore(r.store) && r.events == [] && r.store.Keys == store.Keys
    ensures r.error.Some? ==> r.error == Some(DuplicateTimestamp(time))
    ensures forall id :: id in store && id !in FingerIds(touches) ==> r.store[id] == store[id]
    ensures r.error.None? ==> forall id :: id in store && id in FingerIds(touches) ==> time in Times(r.store[id])
    decreases |touches|
  {
    if |touches| == 0 then Step(store, [], None)
    else
      var first := TrackOne(store, touches[0], time);
      if first.error.Some? then first
      else TrackAll(first.store, touches[1..], time)
  }

  /** TrackTouches throws when a touched, tracked finger already has a sample at this time. */
  lemma {:induction false} TrackAllThrowsOnRepeat(store: Store, touches: seq<Touch>, time: real)
    requires WellFormedStore(store)
    ensures forall id :: id in store && id in FingerIds(touches) && time in Times(store[id]) ==>
      TrackAll(store, touches, time).error.Some?
    decreases |touches|
  {
    if |touches| > 0 {
      var first := TrackOne(store, touches[0], time);
      if first.error.None? {
        TrackAllThrowsOnRepeat(first.store, touches[1..], time);
      }
    }
  }

  /**
   * When TrackTouches does not throw, every touched, tracked finger gains
   * exactly the sample (time, position) of its touch.
   */
  lemma {:induction false} TrackAllGains(store: Store, touches: seq<Touch>, time: real)
    requires WellFormedStore(store)
    ensures var r := TrackAll(store, touches, time);
      r.error.None? ==>
        forall k :: 0 <= k < |touches| && touches[k].fingerId in store ==>
          multiset(r.store[touches[k].fingerId]) == multiset(store[touches[k].fingerId]) + multiset{Sample(time, touches[k].position)}
    decreases |touches|
  {
    if |touches| > 0 {
      var first := TrackOne(store, touches[0], time);
      var rest := touches[1..];
      var r := TrackAll(store, touches, time);
      if first.error.None? && r.error.None? {
        assert r == TrackAll(first.store, rest, time);
        TrackAllGains(first.store, rest, time);
        TrackAllThrowsOnRepeat(first.store, rest, time);
        forall k | 0 <= k < |touches| && touches[k].fingerId in store
          ensures multiset(r.store[touches[k].fingerId])
                  == multiset(store[touches[k].fingerId]) + multiset{Sample(time, touches[k].position)}
        {
          var id := touches[k].fingerId;
          if k == 0 {
            // a second touch of this finger would repeat the time just added
            assert id !in FingerIds(rest);
            assert r.store[id] == first.store[id];
          } else {
            assert rest[k - 1] == touches[k];
            assert id != touches[0].fingerId;
            assert first.store[id] == store[id];
          }
        }
      }
    }
  }

  /**
   * The case of CheckTouchInputEvents for one touch. Began adds a trace and
   * throws if the finger is tracked; Ended looks the trace up, which throws
   * for an untracked finger, evaluates it and removes it; Canceled removes
   * the trace if there is one; Moved reports an ongoing swipe.
   */
  function PhaseOutcome(store: Store, touch: Touch, time: real, settings: Thresholds, screen: Screen, norm: Norm): (r: Step)
    requires WellFormedStore(store) && screen.Valid()
    ensures WellFormedStore(r.store)
    ensures r.error.Some? ==> r.events == [] && r.store == store
    ensures r.store.Keys <= store.Keys + {touch.fingerId}
    ensures forall e :: e in r.events ==> !e.OnPinchDetected?
  {
    var id := touch.fingerId;
    match touch.phase
    case Began =>
      if id in store then Step(store, [], Some(DuplicateBegin(id)))
      else Step(store[id := NewTouchHistory(time, touch.position)], [], None)
    case Ended =>
      if id !in store then Step(store, [], Some(UnknownFinger(id)))
      else Step(store - {id}, EndedTouchEvents(store[id], settings, screen, norm), None)
    case Canceled =>
      Step(store - {id}, [], None)
    case Moved =>
      if touch.deltaTime == 0.0 then Step(store, [], Some(DuplicateTimestamp(0.0)))
      else
        var args := Swipe.OngoingSwipeArgs(touch, norm);
        Step(store, [OnSwipeMoving(args), OnSwipeDetected(args)], None)
    case Stationary =>
      Step(store, [], None)
  }

  /** The loop of CheckTouchInputEvents: PhaseOutcome for each touch in order, stopping at the first exception. */
  function CheckAll(store: Store, touches: seq<Touch>, time: real, settings: Thresholds, screen: Screen, norm: Norm): (r: Step)
    requires WellFormedStore(store) && screen.Valid()
    ensures WellFormedStore(r.store)
    ensures r.store.Keys <= store.Keys + FingerIds(touches)
    ensures forall e :: e in r.events ==> !e.OnPinchDetected?
    decreases |touches|
  {
    if |touches| == 0 then Step(store, [], None)
    else
      var first := PhaseOutcome(store, touches[0], time, settings, screen, norm);
      if first.error.Some? then first
      else
        var rest := CheckAll(first.store, touches[1..], time, settings, screen, norm);
        Step(rest.store, first.events + rest.events, rest.error)
  }

  /** One turn of the loop of CheckTouchInputEvents: the switch for touch i, then the rest. */
  lemma CheckAllStep(store: Store, touches: seq<Touch>, i: nat, time: real, settings: Thresholds, screen: Screen, norm: Norm)
    requires WellFormedStore(store) && screen.Valid() && i < |touches|
    ensures var first := PhaseOutcome(store, touches[i], time, settings, screen, norm);
      var rest := CheckAll(first.store, touches[i + 1..], time, settings, screen, norm);
      CheckAll(store, touches[i..], time, settings, screen, norm)
      == if first.error.Some? then first else Step(rest.store, first.events + rest.events, rest.error)
  {
    assert touches[i..][1..] == touches[i + 1..];
  }

  /** After the last touch the loop of CheckTouchInputEvents has nothing left to do. */
  lemma CheckAllDone(store: Store, touches: seq<Touch>, time: real, settings: Thresholds, screen: Screen, norm: Norm)
    requires WellFormedStore(store) && screen.Valid()
    ensures CheckAll(store, touches[|touches|..], time, settings, screen, norm) == Step(store, [], None)
  {
    assert touches[|touches|..] == [];
  }

  /**
   * The pinch evaluation at the end of CheckTouchInputEvents: one pinch,
   * from the first touch to the second, exactly when two touches are on the screen.
   */
  function PinchEvents(touches: seq<Touch>, norm: Norm): (events: seq<Event>)
    ensures |events| <= 1
    ensures |events| == 1 <==> |touches| == 2
    ensures |events| == 1 ==>
      && events[0].OnPinchDetected?
      && events[0].args.startPos == touches[0].position && events[0].args.endPos == touches[1].position
  {
    if |touches| == 2 then Pinch.EvaluateOngoingPinch(touches[0], touches[1], norm) else []
  }

  /** The touch part of a frame: TrackTouches, then CheckTouchInputEvents, each aborting the frame on an exception. */
  function TouchFrame(store: Store, touches: seq<Touch>, time: real, settings: Thresholds, screen: Screen, norm: Norm): (r: Step)
    requires WellFormedStore(store) && screen.Valid()
    ensures WellFormedStore(r.store)
    ensures r.store.Keys <= store.Keys + FingerIds(touches)
  {
    var tracked := TrackAll(store, touches, time);
    if tracked.error.Some? then tracked
    else
      var checked := CheckAll(tracked.store, touches, time, settings, screen, norm);
      if checked.error.Some? then checked
      else Step(checked.store, checked.events + PinchEvents(touches, norm), None)
  }

  /** The case for one touch leaves the traces of every other finger as they were. */
  lemma PhaseOutcomeLeavesOthers(store: Store, touch: Touch, time: real, settings: Thresholds, screen: Screen, norm: Norm)
    requires WellFormedStore(store) && screen.Valid()
    ensures var r := PhaseOutcome(store, touch, time, settings, screen, norm);
      forall id :: id in store && id != touch.fingerId ==> id in r.store && r.store[id] == store[id]
  {
  }

  /** The loop of CheckTouchInputEvents leaves the trace of every finger no touch carries as it was. */
  lemma {:induction false} CheckAllLeavesOthers(store: Store, touches: seq<Touch>, time: real, settings: Thresholds, screen: Screen, norm: Norm)
    requires WellFormedStore(store) && screen.Valid()
    ensures var r := CheckAll(store, touches, time, settings, screen, norm);
      forall id :: id in store && id !in FingerIds(touches) ==> id in r.store && r.store[id] == store[id]
    decreases |touches|
  {
    if |touches| > 0 {
      var first := PhaseOutcome(store, touches[0], time, settings, screen, norm);
      PhaseOutcomeLeavesOthers(store, touches[0], time, settings, screen, norm);
      if first.error.None? {
        CheckAllLeavesOthers(first.store, touches[1..], time, settings, screen, norm);
      }
    }
  }

  /** A frame leaves the trace of every finger it has no touch for as it was. */
  lemma TouchFrameLeavesOthers(store: Store, touches: seq<Touch>, time: real, settings: Thresholds, screen: Screen, norm: Norm)
    requires WellFormedStore(store) && screen.Valid()
    ensures var r := TouchFrame(store, touches, time, settings, screen, norm);
      forall id :: id in store && id !in FingerIds(touches) ==> id in r.store && r.store[id] == store[id]
  {
    var r := TouchFrame(store, touches, time, settings, screen, norm);
    var tracked := TrackAll(store, touches, time);
    if tracked.error.None? {
      var checked := CheckAll(tracked.store, touches, time, settings, screen, norm);
      CheckAllLeavesOthers(tracked.store, touches, time, settings, screen, norm);
      assert r.store == checked.store;
      forall id | id in store && id !in FingerIds(touches)
        ensures id in r.store && r.store[id] == store[id]
      {
        assert tracked.store[id] == store[id];
      }
    }
  }

  /** Every sample of every tracked trace is older than `time`. */
  ghost predicate AllEarlier(store: Store, time: real) {
    forall id, s :: id in store && s in store[id] ==> s.time < time
  }

  /** No finger appears twice among the touches of a frame. */
  predicate DistinctFingers(touches: seq<Touch>) {
    forall i, j :: 0 <= i < j < |touches| ==> touches[i].fingerId != touches[j].fingerId
  }

  /** With a clock that moves forward, TrackOne never throws and appends the sample to a tracked trace. */
  lemma TrackOneOnAdvancingClock(store: Store, touch: Touch, time: real)
    requires WellFormedStore(store)
    requires touch.fingerId in store ==> forall s :: s in store[touch.fingerId] ==> s.time < time
    ensures TrackOne(store, touch, time)
      == Step(if touch.fingerId in store then store[touch.fingerId := store[touch.fingerId] + [Sample(time, touch.position)]] else store, [], None)
  {
    if touch.fingerId in store {
      InsertAfterAll(store[touch.fingerId], time, touch.position);
    }
  }

  /**
   * With a clock that moves forward and distinct fingers, TrackTouches never
   * throws and appends the frame's sample at the end of every tracked trace.
   */
  lemma {:induction false} TrackAppendsOnAdvancingClock(store: Store, touches: seq<Touch>, time: real)
    requires WellFormedStore(store) && DistinctFingers(touches)
    requires forall k, s :: 0 <= k < |touches| && touches[k].fingerId in store && s in store[touches[k].fingerId] ==> s.time < time
    ensures TrackAll(store, touches, time).error.None?
    ensures forall k :: 0 <= k < |touches| && touches[k].fingerId in store ==>
      TrackAll(store, touches, time).store[touches[k].fingerId] == store[touches[k].fingerId] + [Sample(time, touches[k].position)]
    decreases |touches|
  {
    if |touches| > 0 {
      var t := touches[0];
      var first := TrackOne(store, t, time);
      TrackOneOnAdvancingClock(store, t, time);
      var rest := touches[1..];
      forall k, s | 0 <= k < |rest| && rest[k].fingerId in first.store && s in first.store[rest[k].fingerId]
        ensures s.time < time
      {
        assert rest[k] == touches[k + 1];
        assert first.store[rest[k].fingerId] == store[rest[k].fingerId];
      }
      TrackAppendsOnAdvancingClock(first.store, rest, time);
      var r := TrackAll(first.store, rest, time);
      assert TrackAll(store, touches, time) == r;
      forall k | 0 <= k < |touches| && touches[k].fingerId in store
        ensures r.store[touches[k].fingerId] == store[touches[k].fingerId] + [Sample(time, touches[k].position)]
      {
        if k == 0 {
          forall j | 0 <= j < |rest| ensures rest[j].fingerId != t.fingerId {
            assert rest[j] == touches[j + 1];
          }
          AbsentFinger(rest, t.fingerId);
        } else {
          assert rest[k - 1] == touches[k];
        }
      }
    }
  }

  /** A frame with one touch: TrackOne, then that touch's phase. */
  lemma SingleTouchFrame(store: Store, touch: Touch, time: real, settings: Thresholds, screen: Screen, norm: Norm)
    requires WellFormedStore(store) && screen.Valid()
    ensures var tracked := TrackOne(store, touch, time);
      TouchFrame(store, [touch], time, settings, screen, norm)
      == if tracked.error.Some? then tracked
         else PhaseOutcome(tracked.store, touch, time, settings, screen, norm)
  {
    assert [touch][1..] == [];
    var tracked := TrackOne(store, touch, time);
    assert TrackAll(store, [touch], time) == tracked;
    if tracked.error.None? {
      var p := PhaseOutcome(tracked.store, touch, time, settings, screen, norm);
      assert CheckAll(tracked.store, [touch], time, settings, screen, norm) == Step(p.store, p.events + [], p.error);
      assert p.events + [] == p.events;
    }
  }

  /** A finger that ends is evaluated on its trace including the sample of the frame it ends in, then forgotten. */
  lemma EndedTouchSeesFinalSample(store: Store, touch: Touch, time: real, settings: Thresholds, screen: Screen, norm: Norm)
    requires WellFormedStore(store) && screen.Valid() && AllEarlier(store, time)
    requires touch.phase == Ended && touch.fingerId in store
    ensures var history := store[touch.fingerId] + [Sample(time, touch.position)];
      TouchFrame(store, [touch], time, settings, screen, norm)
      == Step(store - {touch.fingerId}, EndedTouchEvents(history, settings, screen, norm), None)
  {
    LaterEndedTouch(store, touch, store[touch.fingerId], time, settings, screen, norm);
  }

  /** A new finger starts a trace holding only its begin sample, without any event. */
  lemma BeganStartsTrace(store: Store, touch: Touch, time: real, settings: Thresholds, screen: Screen, norm: Norm)
    requires WellFormedStore(store) && screen.Valid()
    requires touch.phase == Began && touch.fingerId !in store
    ensures TouchFrame(store, [touch], time, settings, screen, norm)
         == Step(store[touch.fingerId := [Sample(time, touch.position)]], [], None)
  {
    SingleTouchFrame(store, touch, time, settings, screen, norm);
  }

  /**
   * A touch that begins at t0 and ends at t1 leaves the store as it found it,
   * and its first event is a tap at the end position exactly when t1 - t0 is
   * strictly within the tap bounds.
   */
  lemma TapLifecycle(store: Store, began: Touch, ended: Touch, t0: real, t1: real, settings: Thresholds, screen: Screen, norm: Norm)
    requires WellFormedStore(store) && screen.Valid()
    requires began.phase == Began && ended.phase == Ended && began.fingerId == ended.fingerId && began.fingerId !in store
    requires t0 < t1
    ensures var first := TouchFrame(store, [began], t0, settings, screen, norm);
      WellFormedStore(first.store) &&
      var second := TouchFrame(first.store, [ended], t1, settings, screen, norm);
      && second.store == store && second.error.None?
      && (|second.events| > 0 && second.events[0] == OnTapDetected(TapArgs(ended.position, ended.position))
          <==> settings.minTapDuration < t1 - t0 && Below(t1 - t0, settings.maxTapDuration))
  {
    BeganStartsTrace(store, began, t0, settings, screen, norm);
    EndedAfterBegan(store, ended, began.position, t0, t1, settings, screen, norm);
  }

  /** The second half of TapLifecycle, on the store the begin frame leaves. */
  lemma EndedAfterBegan(store: Store, ended: Touch, start: Vec2, t0: real, t1: real, settings: Thresholds, screen: Screen, norm: Norm)
    requires WellFormedStore(store) && screen.Valid()
    requires ended.phase == Ended && ended.fingerId !in store
    requires t0 < t1
    ensures WellFormedStore(store[ended.fingerId := [Sample(t0, start)]])
    ensures var second := TouchFrame(store[ended.fingerId := [Sample(t0, start)]], [ended], t1, settings, screen, norm);
      && second.store == store && second.error.None?
      && (|second.events| > 0 && second.events[0] == OnTapDetected(TapArgs(ended.position, ended.position))
          <==> settings.minTapDuration < t1 - t0 && Below(t1 - t0, settings.maxTapDuration))
  {
    var id := ended.fingerId;
    StartedStore(store, id, Sample(t0, start));
    EndedTouchTapVerdict(store[id := [Sample(t0, start)]], ended, [Sample(t0, start)], t1, settings, screen, norm);
    TwoSampleTap(Sample(t0, start), Sample(t1, ended.position), settings);
  }

  /** Starting a trace for a new finger keeps the store well formed, and forgetting that finger restores it. */
  lemma StartedStore(store: Store, id: int, s: Sample)
    requires WellFormedStore(store) && id !in store
    ensures WellFormedStore(store[id := [s]])
    ensures store[id := [s]] - {id} == store
  {
  }

  /** A trace of a begin and an end sample is a tap exactly when the time between them is within the tap bounds. */
  lemma TwoSampleTap(first: Sample, last: Sample, settings: Thresholds)
    requires first.time < last.time
    ensures Tap.IsTapValid([first] + [last], settings)
        <==> settings.minTapDuration < last.time - first.time && Below(last.time - first.time, settings.maxTapDuration)
  {
    assert Tap.Duration([first] + [last]) == last.time - first.time;
  }

  /** The first event of an ended finger is its tap, exactly when its trace with the final sample is a valid tap. */
  lemma EndedTouchTapVerdict(store: Store, touch: Touch, trace: Trace, time: real, settings: Thresholds, screen: Screen, norm: Norm)
    requires WellFormedStore(store) && screen.Valid()
    requires touch.phase == Ended && touch.fingerId in store && store[touch.fingerId] == trace
    requires forall s :: s in trace ==> s.time < time
    ensures var r := TouchFrame(store, [touch], time, settings, screen, norm);
      && r.store == store - {touch.fingerId} && r.error.None?
      && (|r.events| > 0 && r.events[0] == OnTapDetected(TapArgs(touch.position, touch.position))
          <==> Tap.IsTapValid(trace + [Sample(time, touch.position)], settings))
  {
    var history := trace + [Sample(time, touch.position)];
    LaterEndedTouch(store, touch, trace, time, settings, screen, norm);
    assert Last(history).pos == touch.position;
  }

  /** The ended-touch frame for a finger whose trace is older than the frame. */
  lemma LaterEndedTouch(store: Store, touch: Touch, trace: Trace, time: real, settings: Thresholds, screen: Screen, norm: Norm)
    requires WellFormedStore(store) && screen.Valid()
    requires touch.phase == Ended && touch.fingerId in store && store[touch.fingerId] == trace
    requires forall s :: s in trace ==> s.time < time
    ensures TouchFrame(store, [touch], time, settings, screen, norm)
         == Step(store - {touch.fingerId}, EndedTouchEvents(trace + [Sample(time, touch.position)], settings, screen, norm), None)
  {
    SingleTouchFrame(store, touch, time, settings, screen, norm);
    InsertAfterAll(trace, time, touch.position);
    UpdateThenForget(store, touch.fingerId, trace + [Sample(time, touch.position)]);
  }

  /** Forgetting a finger drops whatever trace it was just given. */
  lemma UpdateThenForget(store: Store, id: int, trace: Trace)
    ensures store[id := trace] - {id} == store - {id}
  {
  }

  /** Ending a finger that is not tracked throws before any event and changes nothing. */
  lemma UnknownEndedFingerThrows(store: Store, touch: Touch, time: real, settings: Thresholds, screen: Screen, norm: Norm)
    requires WellFormedStore(store) && screen.Valid()
    requires touch.phase == Ended && touch.fingerId !in store
    ensures TouchFrame(store, [touch], time, settings, screen, norm) == Step(store, [], Some(UnknownFinger(touch.fingerId)))
  {
    SingleTouchFrame(store, touch, time, settings, screen, norm);
  }

  /**
   * Beginning a finger that is still tracked throws, after TrackTouches has
   * already appended the frame's sample to its old trace.
   */
  lemma DuplicateBeginThrows(store: Store, touch: Touch, time: real, settings: Thresholds, screen: Screen, norm: Norm)
    requires WellFormedStore(store) && screen.Valid() && AllEarlier(store, time)
    requires touch.phase == Began && touch.fingerId in store
    ensures TouchFrame(store, [touch], time, settings, screen, norm)
         == Step(store[touch.fingerId := store[touch.fingerId] + [Sample(time, touch.position)]], [], Some(DuplicateBegin(touch.fingerId)))
  {
    SingleTouchFrame(store, touch, time, settings, screen, norm);
    InsertAfterAll(store[touch.fingerId], time, touch.position);
  }

  /** A canceled finger is forgotten without any event, whether or not it was tracked. */
  lemma CancelForgets(store: Store, touch: Touch, time: real, settings: Thresholds, screen: Screen, norm: Norm)
    requires WellFormedStore(store) && screen.Valid() && AllEarlier(store, time)
    requires touch.phase == Canceled
    ensures TouchFrame(store, [touch], time, settings, screen, norm) == Step(store - {touch.fingerId}, [], None)
  {
    SingleTouchFrame(store, touch, time, settings, screen, norm);
    var id := touch.fingerId;
    if id in store {
      InsertAfterAll(store[id], time, touch.position);
      var tracked := TrackOne(store, touch, time);
      UpdateThenForget(store, id, tracked.store[id]);
    }
  }

  /** A frame that completes reports a pinch exactly when two touches are on the screen. */
  lemma PinchOnlyWithTwoTouches(store: Store, touches: seq<Touch>, time: real, settings: Thresholds, screen: Screen, norm: Norm)
    requires WellFormedStore(store) && screen.Valid()
    requires TouchFrame(store, touches, time, settings, screen, norm).error.None?
    ensures var events := TouchFrame(store, touches, time, settings, screen, norm).events;
      (exists e :: e in events && e.OnPinchDetected?) <==> |touches| == 2
  {
    var tracked := TrackAll(store, touches, time);
    var checked := CheckAll(tracked.store, touches, time, settings, screen, norm);
    var events := checked.events + PinchEvents(touches, norm);
    if |touches| == 2 {
      assert events[|checked.events|] in events;
    }
  }

  /**
   * TrackDeviceAcceleration: the history only ever grows, by at most one
   * entry, and only the first non-zero acceleration is ever recorded; so a
   * history of at most one non-zero entry stays one.
   */
  function TrackedAcceleration(history: seq<Vec2>, acceleration: Vec2): (r: seq<Vec2>)
    ensures history <= r && |r| <= |history| + 1
    ensures |r| > |history| <==> |history| == 0 && acceleration != Zero
    ensures |r| > |history| ==> r[|history|] == acceleration
    ensures |history| <= 1 && (forall k :: 0 <= k < |history| ==> history[k] != Zero) ==>
      |r| <= 1 && (forall k :: 0 <= k < |r| ==> r[k] != Zero)
  {
    if |history| <= 0 && (acceleration.x != 0.0 || acceleration.y != 0.0) then history + [acceleration] else history
  }

  /** The static state of MobileInput, with the tilt classifier and the settings asset it reads. */
  class MobileInput {
    var touchHistory: Store
    var accelerationHistory: seq<Vec2>
    const tilt: Tilt.TiltEvaluator
    const settings: MobileInputSettingsData

    ghost predicate Valid()
      reads this, tilt
    {
      && WellFormedStore(touchHistory)
      && |accelerationHistory| <= 1
      && (forall k :: 0 <= k < |accelerationHistory| ==> accelerationHistory[k] != Zero)
      && tilt.Valid()
    }

    /** The static initialisers, with TiltEventDetector.Setup(LoadSettings()) done. */
    constructor (settingsData: MobileInputSettingsData)
      ensures Valid()
      ensures touchHistory == map[] && accelerationHistory == []
      ensures settings == settingsData && tilt.loadedSettingsData == settingsData && tilt.previousTilts == {}
    {
      touchHistory := map[];
      accelerationHistory := [];
      settings := settingsData;
      tilt := new Tilt.TiltEvaluator(settingsData);
    }

    method TrackDeviceAcceleration(acceleration: Vec2)
      requires Valid()
      modifies this
      ensures Valid()
      ensures accelerationHistory == TrackedAcceleration(old(accelerationHistory), acceleration)
      ensures touchHistory == old(touchHistory)
    {
      if |accelerationHistory| <= 0 && (acceleration.x != 0.0 || acceleration.y != 0.0) {
        accelerationHistory := accelerationHistory + [acceleration];
      }
    }

    /** TrackTouches: appends (time, position) to the trace of every tracked touch. */
    method TrackTouches(touches: seq<Touch>, time: real) returns (error: Option<InputError>)
      requires Valid()
      modifies this
      ensures Valid()
      ensures accelerationHistory == old(accelerationHistory)
      ensures var r := TrackAll(old(touchHistory), touches, time);
        touchHistory == r.store && error == r.error
    {
      for i := 0 to |touches|
        invariant Valid() && accelerationHistory == old(accelerationHistory)
        invariant TrackAll(old(touchHistory), touches, time) == TrackAll(touchHistory, touches[i..], time)
      {
        assert touches[i..][1..] == touches[i + 1..];
        var touch := touches[i];
        if touch.fingerId in touchHistory {
          var trace := Insert(touchHistory[touch.fingerId], time, touch.position);
          if trace.None? {
            return Some(DuplicateTimestamp(time));
          }
          touchHistory := touchHistory[touch.fingerId := trace.value];
        }
      }
      assert touches[|touches|..] == [];
      error := None;
    }

    /** The switch of CheckTouchInputEvents for one touch. */
    method CheckTouch(touch: Touch, time: real, data: Thresholds, screen: Screen, norm: Norm)
      returns (events: seq<Event>, error: Option<InputError>)
      requires Valid() && screen.Valid()
      modifies this
      ensures Valid()
      ensures accelerationHistory == old(accelerationHistory)
      ensures var r := PhaseOutcome(old(touchHistory), touch, time, data, screen, norm);
        touchHistory == r.store && events == r.events && error == r.error
    {
      events, error := [], None;
      var id := touch.fingerId;
      match touch.phase {
        case Began =>
          if id in touchHistory {
            return [], Some(DuplicateBegin(id));
          }
          touchHistory := touchHistory[id := NewTouchHistory(time, touch.position)];
        case Ended =>
          if id !in touchHistory {
            return [], Some(UnknownFinger(id));
          }
          events := EndedTouchEvents(touchHistory[id], data, screen, norm);
          touchHistory := touchHistory - {id};
        case Canceled =>
          touchHistory := touchHistory - {id};
        case Moved =>
          var outcome := Swipe.CallOngoingSwipe(touch, norm);
          if outcome.Threw? {
            return [], Some(outcome.error);
          }
          events := outcome.events;
        case Stationary =>
      }
    }

    /** CheckTouchInputEvents: the phase switch for every touch, then the pinch. */
    method CheckTouchInputEvents(touches: seq<Touch>, time: real, screen: Screen, norm: Norm)
      returns (events: seq<Event>, error: Option<InputError>)
      requires Valid() && screen.Valid()
      modifies this
      ensures Valid()
      ensures accelerationHistory == old(accelerationHistory)
      ensures var r := CheckAll(old(touchHistory), touches, time, settings.Data(), screen, norm);
        && touchHistory == r.store && error == r.error
        && events == (if r.error.Some? then r.events else r.events + PinchEvents(touches, norm))
    {
      var data := settings.Data();
      events := [];
      for i := 0 to |touches|
        invariant Valid() && accelerationHistory == old(accelerationHistory)
        invariant var whole := CheckAll(old(touchHistory), touches, time, data, screen, norm);
          var rest := CheckAll(touchHistory, touches[i..], time, data, screen, norm);
          whole == Step(rest.store, events + rest.events, rest.error)
      {
        CheckAllStep(touchHistory, touches, i, time, data, screen, norm);
        var stepEvents, stepError := CheckTouch(touches[i], time, data, screen, norm);
        events := events + stepEvents;
        if stepError.Some? {
          return events, stepError;
        }
      }
      CheckAllDone(touchHistory, touches, time, data, screen, norm);
      events := events + PinchEvents(touches, norm);
      error := None;
    }

    /**
     * Process: acceleration tracking and tilt first, then the touches. The
     * tilt classifier cannot throw; an exception from the touches ends the
     * frame with the store as it was at the throw.
     */
    method Process(acceleration: Vec2, touches: seq<Touch>, time: real, screen: Screen, norm: Norm)
      returns (tiltEvents: seq<Event>, touchEvents: seq<Event>, error: Option<InputError>)
      requires Valid() && screen.Valid()
      modifies this, tilt
      ensures Valid()
      ensures accelerationHistory == TrackedAcceleration(old(accelerationHistory), acceleration)
      ensures tilt.loadedSettingsData == old(tilt.loadedSettingsData)
      ensures tilt.previousTilts == Tilt.NextTracked(old(tilt.previousTilts), acceleration, tilt.loadedSettingsData.Data())
      ensures exists k :: (0 <= k <= |tiltEvents|
                           && Tilt.EndedExactly(tiltEvents[..k], Tilt.Ended(old(tilt.previousTilts), acceleration))
                           && tiltEvents[k..] == Tilt.OngoingTiltEvents(acceleration, tilt.loadedSettingsData.Data()))
      ensures var r := TouchFrame(old(touchHistory), touches, time, settings.Data(), screen, norm);
        touchHistory == r.store && touchEvents == r.events && error == r.error
    {
      TrackDeviceAcceleration(acceleration);
      tiltEvents := tilt.EvaluateOngoingTilt(acceleration);
      error := TrackTouches(touches, time);
      if error.Some? {
        touchEvents := [];
        return;
      }
      touchEvents, error := CheckTouchInputEvents(touches, time, screen, norm);
    }
  }
}
