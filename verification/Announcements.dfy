/** Which outages are announced, when, and how often, over whole runs. */
module Announcements {
  import opened Base
  import opened Model
  import opened State
  import opened Incidents
  import opened Lifecycle

  // ---- One step --------------------------------------------------------------

  lemma StepAlerts(s: Snap, eff: Effective, res: Result, reminder: int, now: int)
    ensures var (s', t) := Step(s, eff, res, reminder, now);
      && (t.sendDown <==> t.openIncident && s.status != Unknown && eff.notify)
      && (t.sendDown ==> s.status == Up)
      && (t.sendRecovery <==> t.closeIncident && s.alertSent && eff.notify)
      && (t.sendRecovery ==> t.incident == s.incident)
      && (s'.alertSent ==> t.sendDown || (s.alertSent && !t.openIncident && s'.incident == s.incident))
      && (s'.status == Up ==> s.status == Up || (res.ok && !t.ignored))
      && (s'.status == Down ==> s.status == Down || t.openIncident)
      && (t.incident == 0 || t.incident == s.incident)
  {
  }

  lemma OutagesDiffer(w: World, d: int, e: int)
    requires Consistent(w) && d in w.rows && e in w.rows && d != e
    requires SnapOf(w, d).status == Down && SnapOf(w, e).status == Down
    ensures SnapOf(w, d).incident != SnapOf(w, e).incident
  {
    assert InStep(w, d) && InStep(w, e);
    var a, b := OpenRows(w.incidents, d)[0], OpenRows(w.incidents, e)[0];
    assert a in OpenRows(w.incidents, d) && b in OpenRows(w.incidents, e);
    if a.id == b.id {
      SameIdSameRow(w.incidents, w.next, a, b);
    }
  }

  lemma OutageIsNumbered(w: World, d: int)
    requires Consistent(w) && d in w.rows
    ensures 0 <= SnapOf(w, d).incident < w.next
    ensures SnapOf(w, d).status == Down <==> SnapOf(w, d).incident != 0
  {
    assert InStep(w, d);
    if SnapOf(w, d).status == Down {
      assert OpenRows(w.incidents, d)[0] in w.incidents;
    }
  }

  // ---- The ledger of decisions -----------------------------------------------

  ghost predicate SuccessBefore(os: seq<Outcome>, n: int, d: int) {
    exists j :: 0 <= j < n <= |os| && os[j].acted && os[j].device == d && os[j].ok && !os[j].transition.ignored
  }

  ghost predicate DownBefore(os: seq<Outcome>, n: int, id: int) {
    exists j :: 0 <= j < n <= |os| && os[j].transition.sendDown && os[j].transition.incident == id
  }

  /** A DOWN decision opens an incident on a device seen up before; a RECOVERY decision closes one announced before. */
  ghost predicate Honest(os: seq<Outcome>, k: int)
    requires 0 <= k < |os|
  {
    var t := os[k].transition;
    && (t.sendDown ==> t.openIncident && SuccessBefore(os, k, os[k].device))
    && (t.sendRecovery ==> t.closeIncident && DownBefore(os, k, t.incident))
  }

  /** No incident is announced twice, in either direction. */
  predicate Once(a: Outcome, b: Outcome) {
    && (a.transition.sendDown && b.transition.sendDown ==> a.transition.incident != b.transition.incident)
    && (a.transition.sendRecovery && b.transition.sendRecovery ==> a.transition.incident != b.transition.incident)
  }

  ghost predicate AnnouncedProperly(os: seq<Outcome>) {
    && (forall k :: 0 <= k < |os| ==> Honest(os, k))
    && (forall j, k {:trigger Once(os[j], os[k])} :: 0 <= j < k < |os| ==> Once(os[j], os[k]))
  }

  /** What the live state of one device says about the decisions so far. */
  ghost predicate Backed(w: World, os: seq<Outcome>, d: int) {
    var s := SnapOf(w, d);
    && (s.status == Up ==> SuccessBefore(os, |os|, d))
    && (s.alertSent ==> DownBefore(os, |os|, s.incident))
    && (s.status == Down ==>
          forall k :: 0 <= k < |os| && os[k].transition.sendRecovery ==> os[k].transition.incident != s.incident)
  }

  ghost predicate Ledger(w: World, os: seq<Outcome>) {
    && AnnouncedProperly(os)
    && (forall k :: 0 <= k < |os| ==> os[k].transition.incident < w.next)
    && (forall d :: d in w.rows ==> Backed(w, os, d))
  }

  lemma MoreOutcomes(os: seq<Outcome>, o: Outcome, n: int, d: int, id: int)
    requires 0 <= n <= |os|
    ensures SuccessBefore(os + [o], n, d) == SuccessBefore(os, n, d)
    ensures DownBefore(os + [o], n, id) == DownBefore(os, n, id)
    ensures SuccessBefore(os, |os|, d) ==> SuccessBefore(os + [o], |os| + 1, d)
    ensures DownBefore(os, |os|, id) ==> DownBefore(os + [o], |os| + 1, id)
    ensures o.acted && o.device == d && o.ok && !o.transition.ignored ==> SuccessBefore(os + [o], |os| + 1, d)
    ensures o.transition.sendDown && o.transition.incident == id ==> DownBefore(os + [o], |os| + 1, id)
  {
    var all := os + [o];
    assert all[|os|] == o;
    assert forall j :: 0 <= j < |os| ==> all[j] == os[j];
    if SuccessBefore(os, |os|, d) {
      var j :| 0 <= j < |os| && os[j].acted && os[j].device == d && os[j].ok && !os[j].transition.ignored;
      assert all[j] == os[j];
    }
    if DownBefore(os, |os|, id) {
      var j :| 0 <= j < |os| && os[j].transition.sendDown && os[j].transition.incident == id;
      assert all[j] == os[j];
    }
  }

  lemma ProbeAnnouncesProperly(w: World, os: seq<Outcome>, eff: Effective, res: Result, reminder: int, now: int)
    requires Consistent(w) && res.device in w.rows && Ledger(w, os)
    ensures AnnouncedProperly(os + [Evaluate(w, Some(eff), res, reminder, now).1])
  {
    var o := Evaluate(w, Some(eff), res, reminder, now).1;
    var d := res.device;
    var s := SnapOf(w, d);
    assert InStep(w, d) && Backed(w, os, d);
    OutageIsNumbered(w, d);
    StepAlerts(s, eff, res, reminder, now);
    StepMatches(s, eff, res, reminder, now);
    forall k | 0 <= k < |os| + 1
      ensures Honest(os + [o], k)
    {
      if k < |os| {
        assert Honest(os, k);
        MoreOutcomes(os, o, k, os[k].device, os[k].transition.incident);
      } else {
        MoreOutcomes(os, o, k, d, s.incident);
      }
    }
    forall j, k | 0 <= j < k < |os| + 1
      ensures Once((os + [o])[j], (os + [o])[k])
    {
      if k < |os| {
        assert Once(os[j], os[k]);
      }
    }
  }

  lemma ProbeKeepsBacked(w: World, os: seq<Outcome>, eff: Effective, res: Result, reminder: int, now: int, d: int)
    requires Consistent(w) && res.device in w.rows && d in w.rows && Ledger(w, os)
    ensures var (w', o) := Evaluate(w, Some(eff), res, reminder, now);
      Backed(w', os + [o], d)
  {
    var (w', o) := Evaluate(w, Some(eff), res, reminder, now);
    var s := SnapOf(w, res.device);
    assert InStep(w, res.device) && Backed(w, os, d) && Backed(w, os, res.device);
    OutageIsNumbered(w, res.device);
    OutageIsNumbered(w, d);
    StepAlerts(s, eff, res, reminder, now);
    StepMatches(s, eff, res, reminder, now);
    MoreOutcomes(os, o, |os|, d, SnapOf(w', d).incident);
    if d != res.device && SnapOf(w, d).status == Down && s.status == Down {
      OutagesDiffer(w, d, res.device);
    }
  }

  lemma StepKeepsLedger(w: World, os: seq<Outcome>, e: Event)
    requires Consistent(w) && Known(w, [e]) && Ledger(w, os)
    ensures Ledger(After(w, e), os + Outcomes(w, e))
  {
    assert [e][0] == e;
    var w' := After(w, e);
    match e
    case Probe(eff, res, reminder, now) =>
      if eff.Some? {
        OutageIsNumbered(w, res.device);
        StepAlerts(SnapOf(w, res.device), eff.value, res, reminder, now);
        ProbeAnnouncesProperly(w, os, eff.value, res, reminder, now);
        forall d | d in w'.rows
          ensures Backed(w', os + Outcomes(w, e), d)
        {
          ProbeKeepsBacked(w, os, eff.value, res, reminder, now, d);
        }
      } else {
        UnactedKeepsLedger(w, os, Evaluate(w, eff, res, reminder, now).1);
      }
    case Restart =>
      assert os + [] == os;
      forall d | d in w'.rows
        ensures Backed(w', os, d)
      {
        assert InStep(w, d) && Backed(w, os, d);
      }
    case Retain(_) =>
      assert os + [] == os;
      forall d | d in w'.rows
        ensures Backed(w', os, d)
      {
        assert Backed(w, os, d);
      }
  }

  lemma UnactedKeepsLedger(w: World, os: seq<Outcome>, o: Outcome)
    requires Ledger(w, os) && o.transition == Quiet(Unknown) && 0 < w.next
    ensures Ledger(w, os + [o])
  {
    forall k | 0 <= k < |os| + 1
      ensures Honest(os + [o], k)
    {
      if k < |os| {
        assert Honest(os, k);
        MoreOutcomes(os, o, k, os[k].device, os[k].transition.incident);
      }
    }
    forall j, k | 0 <= j < k < |os| + 1
      ensures Once((os + [o])[j], (os + [o])[k])
    {
      if k < |os| {
        assert Once(os[j], os[k]);
      }
    }
    forall d | d in w.rows
      ensures Backed(w, os + [o], d)
    {
      assert Backed(w, os, d);
      MoreOutcomes(os, o, |os|, d, SnapOf(w, d).incident);
    }
  }

  lemma {:induction false} RunKeepsLedger(w: World, es: seq<Event>)
    requires Consistent(w) && Known(w, es) && Ledger(w, [])
    ensures Ledger(Run(w, es).0, Run(w, es).1)
  {
    if es != [] {
      var n := |es| - 1;
      RunKeepsLedger(w, es[..n]);
      RunKeepsConsistent(w, es[..n]);
      StepKeepsLedger(Run(w, es[..n]).0, Run(w, es[..n]).1, es[n]);
    }
  }

  /** A table of devices nobody has probed yet. */
  predicate Untouched(w: World) {
    && w.incidents == [] && 0 < w.next
    && forall d :: d in w.rows ==> SnapOf(w, d) == FRESH && w.rows[d] == LiveOf(FRESH)
  }

  /**
    Over any run, restarts included: a DOWN decision is made only on opening an incident, only
    for a device that answered before, and once per incident; a RECOVERY decision only on
    closing an incident whose DOWN was decided, and once.
  */
  lemma EachOutageIsAnnouncedOnce(w: World, es: seq<Event>)
    requires Untouched(w) && Known(w, es)
    ensures AnnouncedProperly(Run(w, es).1)
  {
    RunKeepsLedger(w, es);
  }

  // ---- Reminder spacing ------------------------------------------------------

  predicate Alert(o: Outcome) {
    o.transition.sendDown || o.transition.sendReminder
  }

  predicate Spaced(a: Outcome, b: Outcome, interval: int) {
    Alert(a) && Alert(b) && a.transition.incident == b.transition.incident ==> b.now - a.now >= interval
  }

  ghost predicate AllSpaced(os: seq<Outcome>, interval: int) {
    forall j, k {:trigger Spaced(os[j], os[k], interval)} :: 0 <= j < k < |os| ==> Spaced(os[j], os[k], interval)
  }

  /** If the last alert of the open incident is known, no later one is in the ledger. */
  ghost predicate Dated(w: World, os: seq<Outcome>, d: int) {
    var s := SnapOf(w, d);
    s.alertSent && s.lastAlert.Some? ==>
      && s.status == Down
      && forall k :: 0 <= k < |os| && Alert(os[k]) && os[k].transition.incident == s.incident
           ==> os[k].now <= s.lastAlert.value
  }

  /** One process: no restart, and the same reminder interval throughout. */
  ghost predicate OneProcess(es: seq<Event>, interval: int) {
    forall k :: 0 <= k < |es| ==> !es[k].Restart? && (es[k].Probe? ==> es[k].reminder == interval)
  }

  ghost predicate Diary(w: World, os: seq<Outcome>, interval: int) {
    && AllSpaced(os, interval)
    && (forall k :: 0 <= k < |os| ==> os[k].transition.incident < w.next)
    && (forall d :: d in w.rows ==> Dated(w, os, d))
  }

  lemma StepReminders(s: Snap, eff: Effective, res: Result, reminder: int, now: int)
    ensures var (s', t) := Step(s, eff, res, reminder, now);
      && (t.sendReminder ==> s.status == Down && s.alertSent && s.lastAlert.Some? && t.incident == s.incident)
      && (t.sendReminder ==> now - s.lastAlert.GetOr(now) >= reminder > 0 && s'.lastAlert == Some(now) && !t.openIncident)
      && (t.sendDown ==> s'.lastAlert == Some(now))
      && (s'.alertSent && !t.sendReminder && !t.sendDown ==> s.alertSent && s'.lastAlert == s.lastAlert)
  {
  }

  lemma ProbeKeepsDated(w: World, os: seq<Outcome>, eff: Effective, res: Result, interval: int, now: int, d: int)
    requires Consistent(w) && res.device in w.rows && d in w.rows && Diary(w, os, interval)
    ensures var (w', o) := Evaluate(w, Some(eff), res, interval, now);
      Dated(w', os + [o], d)
  {
    var (w', o) := Evaluate(w, Some(eff), res, interval, now);
    var s := SnapOf(w, res.device);
    assert InStep(w, res.device) && Dated(w, os, d) && Dated(w, os, res.device);
    OutageIsNumbered(w, res.device);
    OutageIsNumbered(w, d);
    StepAlerts(s, eff, res, interval, now);
    StepReminders(s, eff, res, interval, now);
    StepMatches(s, eff, res, interval, now);
    if d != res.device && SnapOf(w, d).status == Down && s.status == Down {
      OutagesDiffer(w, d, res.device);
    }
  }

  lemma ProbeKeepsSpacing(w: World, os: seq<Outcome>, eff: Effective, res: Result, interval: int, now: int)
    requires Consistent(w) && res.device in w.rows && Diary(w, os, interval)
    ensures AllSpaced(os + [Evaluate(w, Some(eff), res, interval, now).1], interval)
  {
    var o := Evaluate(w, Some(eff), res, interval, now).1;
    var s := SnapOf(w, res.device);
    assert InStep(w, res.device) && Dated(w, os, res.device);
    StepAlerts(s, eff, res, interval, now);
    StepReminders(s, eff, res, interval, now);
    forall j, k | 0 <= j < k < |os| + 1
      ensures Spaced((os + [o])[j], (os + [o])[k], interval)
    {
      if k < |os| {
        assert Spaced(os[j], os[k], interval);
      }
    }
  }

  lemma StepKeepsDiary(w: World, os: seq<Outcome>, e: Event, interval: int)
    requires Consistent(w) && Known(w, [e]) && OneProcess([e], interval) && Diary(w, os, interval)
    ensures Diary(After(w, e), os + Outcomes(w, e), interval)
  {
    assert [e][0] == e;
    var w' := After(w, e);
    forall d | d in w'.rows
      ensures Dated(w', os + Outcomes(w, e), d)
    {
      assert Dated(w, os, d);
      if e.Probe? && e.eff.Some? {
        ProbeKeepsDated(w, os, e.eff.value, e.res, interval, e.now, d);
      }
    }
    if e.Probe? && e.eff.Some? {
      OutageIsNumbered(w, e.res.device);
      StepAlerts(SnapOf(w, e.res.device), e.eff.value, e.res, interval, e.now);
      ProbeKeepsSpacing(w, os, e.eff.value, e.res, interval, e.now);
    } else {
      var all := os + Outcomes(w, e);
      forall j, k | 0 <= j < k < |all|
        ensures Spaced(all[j], all[k], interval)
      {
        assert k < |os| ==> Spaced(os[j], os[k], interval);
      }
    }
  }

  lemma {:induction false} RunKeepsDiary(w: World, es: seq<Event>, interval: int)
    requires Consistent(w) && Known(w, es) && OneProcess(es, interval) && Diary(w, [], interval)
    ensures Diary(Run(w, es).0, Run(w, es).1, interval)
  {
    if es != [] {
      var n := |es| - 1;
      RunKeepsDiary(w, es[..n], interval);
      RunKeepsConsistent(w, es[..n]);
      StepKeepsDiary(Run(w, es[..n]).0, Run(w, es[..n]).1, es[n], interval);
    }
  }

  /**
    Within one process, whatever incidents it found open when it started, DOWN and reminder
    decisions for the same incident are at least the interval apart.
  */
  lemma RemindersAreSpaced(w: World, es: seq<Event>, interval: int)
    requires Consistent(w) && Known(w, es) && OneProcess(es, interval)
    ensures AllSpaced(Run(w, es).1, interval)
  {
    forall d | d in w.rows ensures Dated(w, [], d) {
      assert InStep(w, d);
    }
    RunKeepsDiary(w, es, interval);
  }
}
