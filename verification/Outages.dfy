/** What the incident log of a run looks like in time, and when a day's downtime is settled. */
module Outages {
  import opened Base
  import opened Calendar
  import opened Model
  import opened State
  import opened Incidents
  import opened Lifecycle
  import opened Downtime

  // ---- Probe times in order --------------------------------------------------

  /** The last probe time of each device after a run. */
  function Seen(seen: map<int, int>, es: seq<Event>): map<int, int> {
    if es == [] then seen
    else
      var e := es[|es| - 1];
      var before := Seen(seen, es[..|es| - 1]);
      if e.Probe? && e.eff.Some? then before[e.res.device := e.res.at] else before
  }

  /** Each device's probe times never go back. */
  ghost predicate InOrder(seen: map<int, int>, es: seq<Event>) {
    es == [] ||
    (var e := es[|es| - 1];
     var before := Seen(seen, es[..|es| - 1]);
     InOrder(seen, es[..|es| - 1]) &&
     (e.Probe? && e.eff.Some? && e.res.device in before ==> before[e.res.device] <= e.res.at))
  }

  /** Nothing recorded about a device lies after `t`, and a running streak began after its last outage ended. */
  ghost predicate Orderly(s: Snap, rows: seq<Incident>, d: int, t: int) {
    && (s.firstFailure.Some? ==> s.firstFailure.value <= t)
    && (forall k :: 0 <= k < |rows| && rows[k].device == d ==>
          && rows[k].started <= t
          && (rows[k].resolved.Some? ==>
                rows[k].resolved.value <= t
                && (s.firstFailure.Some? ==> rows[k].resolved.value <= s.firstFailure.value)))
  }

  ghost predicate Timely(w: World, seen: map<int, int>) {
    && w.rows.Keys <= seen.Keys
    && Chronological(w.incidents)
    && (forall d :: d in w.rows ==> Orderly(SnapOf(w, d), w.incidents, d, seen[d]))
  }

  lemma OpenedInOrder(w: World, s: Snap, i: Incident, t: int, at: int, s': Snap)
    requires Chronological(w.incidents) && Orderly(s, w.incidents, i.device, t) && t <= at
    requires OpenRows(w.incidents, i.device) == []
    requires i.resolved.None? && i.started == s.firstFailure.GetOr(at) && s'.firstFailure == Some(i.started)
    ensures Chronological(w.incidents + [i]) && Orderly(s', w.incidents + [i], i.device, at)
  {
    forall k | 0 <= k < |w.incidents|
      ensures Precedes(w.incidents[k], i)
    {
      assert w.incidents[k] in w.incidents;
    }
  }

  lemma ClosedInOrder(rows: seq<Incident>, s: Snap, d: int, next: int, id: int, at: int, sent: bool, t: int, s': Snap)
    requires Chronological(rows) && Numbered(rows, next) && Orderly(s, rows, d, t) && t <= at
    requires |OpenRows(rows, d)| == 1 && OpenRows(rows, d)[0].id == id
    requires s'.firstFailure == None
    ensures Chronological(Resolve(rows, id, at, sent)) && Orderly(s', Resolve(rows, id, at, sent), d, at)
  {
    var mine := OpenRows(rows, d)[0];
    assert mine in rows;
    forall k | 0 <= k < |rows| && rows[k].id == id
      ensures rows[k] == mine
    {
      SameIdSameRow(rows, next, rows[k], mine);
    }
    var rows' := Resolve(rows, id, at, sent);
    forall j, k | 0 <= j < k < |rows|
      ensures Precedes(rows'[j], rows'[k])
    {
      assert Precedes(rows[j], rows[k]);
    }
  }

  lemma MarkedInOrder(rows: seq<Incident>, id: int, now: int, s: Snap, d: int, t: int)
    ensures Chronological(rows) ==> Chronological(MarkAlerted(rows, id, now))
    ensures Orderly(s, rows, d, t) ==> Orderly(s, MarkAlerted(rows, id, now), d, t)
  {
    var marked := MarkAlerted(rows, id, now);
    if Chronological(rows) {
      forall j, k | 0 <= j < k < |rows|
        ensures Precedes(marked[j], marked[k])
      {
        assert Precedes(rows[j], rows[k]);
      }
    }
  }

  lemma FirstFailureAfterStep(s: Snap, eff: Effective, res: Result, reminder: int, now: int)
    ensures var (s', t) := Step(s, eff, res, reminder, now);
      && (t.ignored <==> res.canceled)
      && (t.ignored ==> s' == s)
      && (!t.ignored && res.ok ==> s'.firstFailure == None && !t.openIncident)
      && (!t.ignored && !res.ok ==> !t.closeIncident && s'.firstFailure == Some(s.firstFailure.GetOr(res.at)))
      && (t.openIncident ==> t.incidentStart == s'.firstFailure)
  {
  }

  /** The probed device itself. */
  lemma ProbeKeepsOrderly(w: World, eff: Effective, res: Result, reminder: int, now: int, t: int)
    requires Consistent(w) && res.device in w.rows && t <= res.at
    requires Chronological(w.incidents) && Orderly(SnapOf(w, res.device), w.incidents, res.device, t)
    ensures var w' := Evaluate(w, Some(eff), res, reminder, now).0;
      Chronological(w'.incidents) && Orderly(SnapOf(w', res.device), w'.incidents, res.device, res.at)
  {
    var (w', o) := Evaluate(w, Some(eff), res, reminder, now);
    var d := res.device;
    var s := SnapOf(w, d);
    var tr := o.transition;
    assert InStep(w, d);
    assert s.status == Down ==> OpenRows(w.incidents, d)[0] in w.incidents;
    StepMatches(s, eff, res, reminder, now);
    FirstFailureAfterStep(s, eff, res, reminder, now);
    if tr.openIncident {
      var i := NewIncident(w.next, d, res, tr);
      OpenedInOrder(w, s, i, t, res.at, SnapOf(w', d));
      MarkedInOrder(w.incidents + [i], w.next, now, SnapOf(w', d), d, res.at);
    } else if tr.closeIncident {
      ClosedInOrder(w.incidents, s, d, w.next, tr.incident, res.at, tr.sendRecovery, t, SnapOf(w', d));
    }
  }

  lemma OpenedElsewhere(rows: seq<Incident>, i: Incident, s: Snap, d: int, t: int)
    requires Orderly(s, rows, d, t) && i.device != d
    ensures Orderly(s, rows + [i], d, t)
  {
  }

  lemma ResolvedElsewhere(rows: seq<Incident>, next: int, mine: Incident, at: int, sent: bool, s: Snap, d: int, t: int)
    requires Numbered(rows, next) && mine in rows && mine.device != d && Orderly(s, rows, d, t)
    ensures Orderly(s, Resolve(rows, mine.id, at, sent), d, t)
  {
    forall k | 0 <= k < |rows| && rows[k].id == mine.id
      ensures rows[k].device != d
    {
      SameIdSameRow(rows, next, rows[k], mine);
    }
  }

  /** Every other device: its rows keep their times. */
  lemma ProbeLeavesOthersOrderly(w: World, eff: Effective, res: Result, reminder: int, now: int, d: int, t: int)
    requires Consistent(w) && res.device in w.rows && d in w.rows && d != res.device
    requires Orderly(SnapOf(w, d), w.incidents, d, t)
    ensures var w' := Evaluate(w, Some(eff), res, reminder, now).0;
      Orderly(SnapOf(w', d), w'.incidents, d, t)
  {
    var (w', o) := Evaluate(w, Some(eff), res, reminder, now);
    var s := SnapOf(w, res.device);
    var tr := o.transition;
    var mine := OpenRows(w.incidents, res.device);
    assert InStep(w, res.device);
    assert s.status == Down ==> mine[0] in w.incidents;
    StepMatches(s, eff, res, reminder, now);
    if tr.openIncident {
      OpenedElsewhere(w.incidents, NewIncident(w.next, res.device, res, tr), SnapOf(w, d), d, t);
      MarkedInOrder(w.incidents + [NewIncident(w.next, res.device, res, tr)], w.next, now, SnapOf(w, d), d, t);
    } else if tr.closeIncident {
      ResolvedElsewhere(w.incidents, w.next, mine[0], res.at, tr.sendRecovery, SnapOf(w, d), d, t);
    }
  }

  lemma RetainKeepsOrderly(s: Snap, rows: seq<Incident>, before: int, d: int, t: int)
    requires Orderly(s, rows, d, t)
    ensures Orderly(s, Retained(rows, before), d, t)
  {
    var kept := Retained(rows, before);
    forall k | 0 <= k < |kept| ensures kept[k] in rows {}
  }

  lemma StepKeepsTimely(w: World, seen: map<int, int>, e: Event)
    requires Consistent(w) && Known(w, [e]) && Timely(w, seen)
    requires e.Probe? && e.eff.Some? && e.res.device in seen ==> seen[e.res.device] <= e.res.at
    ensures Timely(After(w, e), if e.Probe? && e.eff.Some? then seen[e.res.device := e.res.at] else seen)
  {
    assert [e][0] == e;
    var w' := After(w, e);
    match e
    case Probe(eff, res, reminder, now) =>
      if eff.Some? {
        ProbeKeepsOrderly(w, eff.value, res, reminder, now, seen[res.device]);
        forall d | d in w'.rows && d != res.device
          ensures Orderly(SnapOf(w', d), w'.incidents, d, seen[d])
        {
          ProbeLeavesOthersOrderly(w, eff.value, res, reminder, now, d, seen[d]);
        }
      }
    case Restart =>
      forall d | d in w.rows
        ensures SnapOf(w', d).firstFailure == SnapOf(w, d).firstFailure
      {
        assert InStep(w, d);
      }
    case Retain(before) =>
      RetainedKeepsOrder(w.incidents, before, w.next);
      forall d | d in w.rows
        ensures Orderly(SnapOf(w', d), w'.incidents, d, seen[d])
      {
        RetainKeepsOrderly(SnapOf(w, d), w.incidents, before, d, seen[d]);
      }
  }

  lemma {:induction false} RunKeepsTimely(w: World, seen: map<int, int>, es: seq<Event>)
    requires Consistent(w) && Known(w, es) && Timely(w, seen) && InOrder(seen, es)
    ensures Timely(Run(w, es).0, Seen(seen, es))
  {
    if es != [] {
      var n := |es| - 1;
      RunKeepsTimely(w, seen, es[..n]);
      RunKeepsConsistent(w, es[..n]);
      StepKeepsTimely(Run(w, es[..n]).0, Seen(seen, es[..n]), es[n]);
    }
  }

  /**
    Over any run in which each device's probe times are in order, every device has at most one
    open incident, open exactly while it is DOWN; its incidents never overlap; and the downtime
    of a day is the time it was down that day, which is never more than the day has.
  */
  lemma OutagesNeverOverlap(cal: Calendar, w: World, seen: map<int, int>, es: seq<Event>, d: int, day: int)
    requires cal.Ordered() && Consistent(w) && Known(w, es) && Timely(w, seen) && InOrder(seen, es) && d in w.rows
    ensures var w' := Run(w, es).0;
      var open := OpenRows(w'.incidents, d);
      && |open| == (if SnapOf(w', d).status == Down then 1 else 0)
      && (open != [] ==> SnapOf(w', d).incident == open[0].id)
      && Chronological(w'.incidents)
      && DowntimeForDay(cal, w'.incidents, d, day) == |DownSeconds(w'.incidents, d, cal.Start(day), cal.Start(day + 1))|
      && DowntimeForDay(cal, w'.incidents, d, day) <= cal.Start(day + 1) - cal.Start(day)
  {
    RunKeepsConsistent(w, es);
    RunKeepsTimely(w, seen, es);
    var w' := Run(w, es).0;
    assert InStep(w', d);
    DowntimeIsSecondsDown(cal, w'.incidents, d, day);
  }

  // ---- When a day's figure is final ------------------------------------------

  /** No streak that began before `hi` can still become an incident. */
  predicate Settled(s: Snap, hi: int) {
    s.status == Down || s.firstFailure.None? || s.firstFailure.value >= hi
  }

  /** What can follow once [lo, hi) is over: later probes of the device, anything for others, and retention up to `lo`. */
  ghost predicate Later(w: World, es: seq<Event>, d: int, lo: int, hi: int) {
    && Known(w, es)
    && forall k :: 0 <= k < |es| ==>
         match es[k]
         case Probe(eff, res, _, _) => eff.Some? && res.device == d ==> res.at >= hi
         case Restart => true
         case Retain(before) => before <= lo
  }

  lemma FigureAfterClosing(rows: seq<Incident>, next: int, i: Incident, at: int, sent: bool, d: int, lo: int, hi: int)
    requires Numbered(rows, next) && i in rows && i.resolved.None? && lo < hi
    requires i.device == d ==> at >= hi
    ensures QuerySum(Resolve(rows, i.id, at, sent), d, lo, hi) == QuerySum(rows, d, lo, hi)
  {
    forall k | 0 <= k < |rows| && rows[k].id == i.id
      ensures rows[k] == i
    {
      SameIdSameRow(rows, next, rows[k], i);
    }
    SameShares(rows, Resolve(rows, i.id, at, sent), d, lo, hi);
  }

  lemma ProbeKeepsFigure(w: World, eff: Effective, res: Result, reminder: int, now: int, d: int, lo: int, hi: int)
    requires Consistent(w) && res.device in w.rows && d in w.rows && lo < hi
    requires res.device == d ==> res.at >= hi && Settled(SnapOf(w, d), hi)
    ensures var w' := Evaluate(w, Some(eff), res, reminder, now).0;
      QuerySum(w'.incidents, d, lo, hi) == QuerySum(w.incidents, d, lo, hi)
  {
    hide QuerySum, Step;
    var (w', o) := Evaluate(w, Some(eff), res, reminder, now);
    var s := SnapOf(w, res.device);
    var tr := o.transition;
    var mine := OpenRows(w.incidents, res.device);
    assert InStep(w, res.device);
    assert s.status == Down ==> mine[0] in w.incidents;
    StepMatches(s, eff, res, reminder, now);
    FirstFailureAfterStep(s, eff, res, reminder, now);
    if tr.openIncident {
      var i := NewIncident(w.next, res.device, res, tr);
      QuerySumAppend(w.incidents, i, d, lo, hi);
      SameShares(w.incidents + [i], MarkAlerted(w.incidents + [i], w.next, now), d, lo, hi);
    } else if tr.closeIncident {
      FigureAfterClosing(w.incidents, w.next, mine[0], res.at, tr.sendRecovery, d, lo, hi);
    }
  }

  lemma StepKeepsFigure(w: World, e: Event, d: int, lo: int, hi: int)
    requires Consistent(w) && d in w.rows && Settled(SnapOf(w, d), hi) && Later(w, [e], d, lo, hi) && lo < hi
    ensures QuerySum(After(w, e).incidents, d, lo, hi) == QuerySum(w.incidents, d, lo, hi)
    ensures Settled(SnapOf(After(w, e), d), hi)
  {
    assert [e][0] == e;
    match e
    case Probe(eff, res, reminder, now) =>
      if eff.Some? {
        ProbeKeepsFigure(w, eff.value, res, reminder, now, d, lo, hi);
        FirstFailureAfterStep(SnapOf(w, res.device), eff.value, res, reminder, now);
      }
    case Restart =>
      assert InStep(w, d);
    case Retain(before) =>
      RetentionKeepsQuery(w.incidents, d, before, lo, hi);
  }

  lemma {:induction false} RunKeepsFigure(w: World, es: seq<Event>, d: int, lo: int, hi: int)
    requires Consistent(w) && d in w.rows && Settled(SnapOf(w, d), hi) && Later(w, es, d, lo, hi) && lo < hi
    ensures QuerySum(Run(w, es).0.incidents, d, lo, hi) == QuerySum(w.incidents, d, lo, hi)
    ensures Settled(SnapOf(Run(w, es).0, d), hi)
  {
    if es != [] {
      var n := |es| - 1;
      RunKeepsFigure(w, es[..n], d, lo, hi);
      RunKeepsConsistent(w, es[..n]);
      StepKeepsFigure(Run(w, es[..n]).0, es[n], d, lo, hi);
    }
  }

  /** The next failed probe, with a threshold it reaches. */
  function Trip(d: int, at: int): Event {
    Probe(Some(Effective(d, None, "", 30, 3, 1, 1, false, [], None)), Result(d, false, false, at, "", 0), 0, at)
  }

  /** A streak that began before the day ended can still reach back into the day. */
  lemma UnsettledCanChange(w: World, d: int, lo: int, hi: int)
    requires Consistent(w) && d in w.rows && !Settled(SnapOf(w, d), hi) && lo < hi
    ensures Later(w, [Trip(d, hi)], d, lo, hi)
    ensures QuerySum(Run(w, [Trip(d, hi)]).0.incidents, d, lo, hi) > QuerySum(w.incidents, d, lo, hi)
  {
    var e := Trip(d, hi);
    assert [e][0] == e && [e][..0] == [];
    assert Run(w, [e]).0 == After(Run(w, []).0, e) == After(w, e);
    var s := SnapOf(w, d);
    assert InStep(w, d);
    var o := Evaluate(w, e.eff, e.res, e.reminder, e.now).1;
    assert o.transition.openIncident;
    QuerySumAppend(w.incidents, NewIncident(w.next, d, e.res, o.transition), d, lo, hi);
  }

  /**
    Once a day is over and its downtime has been read, no later probe, restart or retention
    pass changes that figure - exactly when the device was DOWN at that moment, or had no
    failing streak that began before the day ended.
  */
  lemma DayIsFinalIffSettled(cal: Calendar, w: World, d: int, day: int)
    requires cal.Ordered() && Consistent(w) && d in w.rows
    requires forall k :: 0 <= k < |w.incidents| ==> !w.incidents[k].Reversed()
    ensures Settled(SnapOf(w, d), cal.Start(day + 1))
      <==> forall es :: Later(w, es, d, cal.Start(day), cal.Start(day + 1)) ==>
             DowntimeForDay(cal, Run(w, es).0.incidents, d, day) == DowntimeForDay(cal, w.incidents, d, day)
  {
    var lo, hi := cal.Start(day), cal.Start(day + 1);
    if Settled(SnapOf(w, d), hi) {
      forall es | Later(w, es, d, lo, hi)
        ensures DowntimeForDay(cal, Run(w, es).0.incidents, d, day) == DowntimeForDay(cal, w.incidents, d, day)
      {
        RunKeepsFigure(w, es, d, lo, hi);
      }
    } else {
      UnsettledCanChange(w, d, lo, hi);
      QuerySumIsCoverSum(w.incidents, d, lo, hi);
    }
  }
}
