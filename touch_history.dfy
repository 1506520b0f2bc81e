/**
 * The trace of one touch (TouchHistory.trace): a SortedDictionary from time
 * stamp to position, represented as a sequence of samples kept in strictly
 * increasing time order.
 */
module Traces {
  import opened Geometry
  import opened Optional

  datatype Sample = Sample(time: real, pos: Vec2)

  type Trace = seq<Sample>

  /** Keys are in strictly increasing order, hence also distinct. */
  ghost predicate Sorted(t: Trace) {
    forall i, j :: 0 <= i < j < |t| ==> t[i].time < t[j].time
  }

  /** The key set of the dictionary. */
  function Times(t: Trace): set<real> {
    set s | s in t :: s.time
  }

  lemma TimesOfCons(s: Sample, t: Trace)
    ensures Times([s] + t) == {s.time} + Times(t)
  {
    assert forall x :: x in [s] + t <==> x == s || x in t;
  }

  function ContainsKey(t: Trace, time: real): (b: bool)
    ensures b <==> time in Times(t)
  {
    exists s :: s in t && s.time == time
  }

  /** First().Value / First().Key: the earliest sample. */
  function First(t: Trace): Sample
    requires |t| >= 1
  {
    t[0]
  }

  /** Last().Value / Last().Key: the latest sample. */
  function Last(t: Trace): Sample
    requires |t| >= 1
  {
    t[|t| - 1]
  }

  /** Prepending a sample earlier than every sample keeps a trace sorted. */
  lemma SortedCons(s: Sample, t: Trace)
    requires Sorted(t)
    requires forall x :: x in t ==> s.time < x.time
    ensures Sorted([s] + t)
  {
    var u := [s] + t;
    forall i, j | 0 <= i < j < |u| ensures u[i].time < u[j].time {
      if i == 0 { assert u[j] == t[j - 1] && u[j] in t; } else { assert u[i] == t[i - 1] && u[j] == t[j - 1]; }
    }
  }

  /** The tail of a sorted trace is later than its head. */
  lemma SortedTailLater(t: Trace)
    requires Sorted(t) && |t| >= 1
    ensures Sorted(t[1..])
    ensures forall x :: x in t[1..] ==> t[0].time < x.time
  {
    forall x | x in t[1..] ensures t[0].time < x.time {
      var k :| 0 <= k < |t[1..]| && t[1..][k] == x;
      assert t[k + 1] == x;
    }
  }

  /**
   * SortedDictionary.Add: the sample goes to its place in time order; a key
   * that is already present makes Add throw, modelled as None.
   */
  function Insert(t: Trace, time: real, pos: Vec2): (r: Option<Trace>)
    requires Sorted(t)
    ensures r.None? <==> time in Times(t)
    ensures r.Some? ==> Sorted(r.value)
    ensures r.Some? ==> multiset(r.value) == multiset(t) + multiset{Sample(time, pos)}
    ensures r.Some? ==> Times(r.value) == Times(t) + {time}
    ensures r.Some? && (forall s :: s in t ==> time < s.time) ==> r.value == [Sample(time, pos)] + t
    decreases |t|
  {
    if |t| == 0 || time < t[0].time then
      InsertFront(t, time, pos);
      Some([Sample(time, pos)] + t)
    else
      assert t == [t[0]] + t[1..];
      TimesOfCons(t[0], t[1..]);
      SortedTailLater(t);
      if time == t[0].time then None
      else
        match Insert(t[1..], time, pos)
        case None => None
        case Some(rest) =>
          InsertBehind(t, time, pos, rest);
          Some([t[0]] + rest)
  }

  /** With a clock that only moves forward, Add appends at the end. */
  lemma {:induction false} InsertAfterAll(t: Trace, time: real, pos: Vec2)
    requires Sorted(t)
    requires forall s :: s in t ==> s.time < time
    ensures Insert(t, time, pos) == Some(t + [Sample(time, pos)])
    decreases |t|
  {
    if |t| > 0 {
      assert t[0] in t;
      SortedTailLater(t);
      InsertAfterAll(t[1..], time, pos);
      assert t[0].time < time;
      assert Insert(t, time, pos) == Some([t[0]] + (t[1..] + [Sample(time, pos)]));
      assert [t[0]] + (t[1..] + [Sample(time, pos)]) == t + [Sample(time, pos)];
    } else {
      assert [Sample(time, pos)] + t == t + [Sample(time, pos)];
    }
  }

  /** Adding a second key to a one-sample trace puts the two samples in key order. */
  lemma InsertIntoSingle(s: Sample, time: real, pos: Vec2)
    requires time != s.time
    ensures Insert([s], time, pos) == Some(if time < s.time then [Sample(time, pos), s] else [s, Sample(time, pos)])
  {
    if s.time < time {
      InsertAfterAll([s], time, pos);
      assert [s] + [Sample(time, pos)] == [s, Sample(time, pos)];
    } else {
      assert forall x :: x in [s] ==> time < x.time;
      assert [Sample(time, pos)] + [s] == [Sample(time, pos), s];
    }
  }

  lemma InsertFront(t: Trace, time: real, pos: Vec2)
    requires Sorted(t)
    requires |t| == 0 || time < t[0].time
    ensures time !in Times(t)
    ensures Sorted([Sample(time, pos)] + t)
    ensures Times([Sample(time, pos)] + t) == Times(t) + {time}
  {
    TimesOfCons(Sample(time, pos), t);
    forall x | x in t ensures time < x.time {
      var k :| 0 <= k < |t| && t[k] == x;
      assert k == 0 || t[0].time < t[k].time;
    }
    SortedCons(Sample(time, pos), t);
  }

  lemma InsertBehind(t: Trace, time: real, pos: Vec2, rest: Trace)
    requires Sorted(t) && |t| >= 1 && t[0].time < time
    requires Sorted(rest)
    requires multiset(rest) == multiset(t[1..]) + multiset{Sample(time, pos)}
    requires Times(rest) == Times(t[1..]) + {time}
    ensures Sorted([t[0]] + rest)
    ensures multiset([t[0]] + rest) == multiset(t) + multiset{Sample(time, pos)}
    ensures Times([t[0]] + rest) == Times(t) + {time}
  {
    SortedTailLater(t);
    LaterThanBound(t[0].time, t[1..], Sample(time, pos), rest);
    SortedCons(t[0], rest);
    ConsBehind(t, Sample(time, pos), rest);
  }

  /** Putting the head back in front of the tail with one more sample: the same samples and keys, plus the new one. */
  lemma ConsBehind(t: Trace, s: Sample, rest: Trace)
    requires |t| >= 1
    requires multiset(rest) == multiset(t[1..]) + multiset{s}
    requires Times(rest) == Times(t[1..]) + {s.time}
    ensures multiset([t[0]] + rest) == multiset(t) + multiset{s}
    ensures Times([t[0]] + rest) == Times(t) + {s.time}
  {
    assert t == [t[0]] + t[1..];
    TimesOfCons(t[0], t[1..]);
    TimesOfCons(t[0], rest);
  }

  /** Adding a later sample to samples that are all later than a bound keeps them all later. */
  lemma LaterThanBound(bound: real, u: Trace, s: Sample, rest: Trace)
    requires forall x :: x in u ==> bound < x.time
    requires bound < s.time
    requires multiset(rest) == multiset(u) + multiset{s}
    ensures forall x :: x in rest ==> bound < x.time
  {
    forall x | x in rest ensures bound < x.time {
      assert x in multiset(rest);
    }
  }

  /** SortedDictionary.Remove: drops the sample with that key, if any. */
  function Remove(t: Trace, time: real): (r: Trace)
    requires Sorted(t)
    ensures Sorted(r)
    ensures Times(r) == Times(t) - {time}
    ensures forall s :: s in r <==> s in t && s.time != time
    ensures time !in Times(t) ==> r == t
    ensures time in Times(t) ==> |r| == |t| - 1
    decreases |t|
  {
    if |t| == 0 then []
    else
      assert t == [t[0]] + t[1..];
      TimesOfCons(t[0], t[1..]);
      SortedTailLater(t);
      assert t[0].time !in Times(t[1..]);
      var rest := Remove(t[1..], time);
      if t[0].time == time then rest
      else
        TimesOfCons(t[0], rest);
        [t[0]] + rest
  }

  /** The TouchHistory constructor: a trace holding the begin sample only. */
  function NewTouchHistory(time: real, startPosition: Vec2): (t: Trace)
    ensures Sorted(t) && |t| == 1 && Times(t) == {time}
    ensures First(t) == Last(t) == Sample(time, startPosition)
  {
    [Sample(time, startPosition)]
  }
}
