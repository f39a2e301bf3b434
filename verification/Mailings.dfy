/** Which mail leaves, which rows and notices go with it, said about the tables before and after a probe. */
module Mailings {
  import opened Base
  import opened Heartbeats
  import opened Model
  import opened State
  import opened Incidents
  import opened Lifecycle
  import opened Announcements
  import E = Evaluator

  // ---- What a probe did to the device's incident ---------------------------------

  predicate Opens(v: World, v': World, d: int, i: int) {
    OpenRows(v.incidents, d) == [] && |OpenRows(v'.incidents, d)| == 1 && OpenRows(v'.incidents, d)[0].id == i
  }

  predicate Closes(v: World, v': World, d: int, i: int) {
    |OpenRows(v.incidents, d)| == 1 && OpenRows(v.incidents, d)[0].id == i && OpenRows(v'.incidents, d) == []
  }

  predicate Stands(v: World, v': World, d: int, i: int) {
    |OpenRows(v.incidents, d)| == |OpenRows(v'.incidents, d)| == 1
    && OpenRows(v.incidents, d)[0].id == OpenRows(v'.incidents, d)[0].id == i
  }

  /** The transition names what the incident table shows. */
  lemma TransitionNamesIncident(v: World, eff: Effective, res: Result, reminder: int, now: int, i: int)
    requires Consistent(v) && res.device in v.rows
    ensures var (v', o) := Evaluate(v, Some(eff), res, reminder, now);
      var t := o.transition;
      && (t.openIncident && t.incident == i <==> Opens(v, v', res.device, i))
      && (t.closeIncident && t.incident == i <==> Closes(v, v', res.device, i))
      && (t.sendReminder ==> (t.incident == i <==> Stands(v, v', res.device, i)))
      && (t.sendDown ==> t.openIncident) && (t.sendRecovery ==> t.closeIncident)
      && !(t.openIncident && t.closeIncident) && (t.sendReminder ==> !t.openIncident && !t.closeIncident)
      && (t.ignored ==> !t.sendDown && !t.sendRecovery && !t.sendReminder)
  {
    var s := SnapOf(v, res.device);
    assert InStep(v, res.device);
    OutageIsNumbered(v, res.device);
    ProbeKeepsInStep(v, eff, res, reminder, now, res.device);
    StepMatches(s, eff, res, reminder, now);
    StepReminders(s, eff, res, reminder, now);
    StepAlerts(s, eff, res, reminder, now);
  }

  /**
    The mail of one probe, for a device with recipients: DOWN for the incident opened there if
    it was decided to say so, RECOVERY for the one closed there likewise, a reminder for the one
    that stands likewise, and nothing otherwise. Without recipients there is no mail.
  */
  lemma MailIff(v: World, eff: Effective, res: Result, reminder: int, now: int, i: int)
    requires Consistent(v) && res.device in v.rows
    ensures var (v', o) := Evaluate(v, Some(eff), res, reminder, now);
      var t := o.transition;
      var told := eff.recipients != [];
      && (o.mail == DownMail(i) <==> told && t.sendDown && Opens(v, v', res.device, i))
      && (o.mail == RecoveryMail(i) <==> told && t.sendRecovery && Closes(v, v', res.device, i))
      && (o.mail == ReminderMail(i) <==> told && t.sendReminder && Stands(v, v', res.device, i))
      && (o.mail == NoMail <==> !told || !(t.sendDown || t.sendRecovery || t.sendReminder))
  {
    hide Opens, Closes, Stands, Step;
    TransitionNamesIncident(v, eff, res, reminder, now, i);
  }

  // ---- When each is decided --------------------------------------------------------

  lemma ExactlyMore(os: seq<Outcome>, o: Outcome, d: int, id: int)
    ensures SuccessBefore(os + [o], |os| + 1, d)
      <==> SuccessBefore(os, |os|, d) || (o.acted && o.device == d && o.ok && !o.transition.ignored)
    ensures DownBefore(os + [o], |os| + 1, id)
      <==> DownBefore(os, |os|, id) || (o.transition.sendDown && o.transition.incident == id)
  {
    MoreOutcomes(os, o, |os|, d, id);
    var all := os + [o];
    if SuccessBefore(all, |os| + 1, d) {
      var j :| 0 <= j < |os| + 1 && all[j].acted && all[j].device == d && all[j].ok && !all[j].transition.ignored;
      assert j < |os| ==> all[j] == os[j];
    }
    if DownBefore(all, |os| + 1, id) {
      var j :| 0 <= j < |os| + 1 && all[j].transition.sendDown && all[j].transition.incident == id;
      assert j < |os| ==> all[j] == os[j];
    }
  }

  /** The live state forgets nothing of what was seen and decided. */
  ghost predicate Candid(w: World, os: seq<Outcome>, d: int) {
    var s := SnapOf(w, d);
    && (SuccessBefore(os, |os|, d) ==> s.status != Unknown)
    && (s.status == Down && DownBefore(os, |os|, s.incident) ==> s.alertSent)
  }

  ghost predicate AllCandid(w: World, os: seq<Outcome>) {
    forall d :: d in w.rows ==> Candid(w, os, d)
  }

  lemma StepRemembers(s: Snap, eff: Effective, res: Result, reminder: int, now: int)
    ensures var (s', t) := Step(s, eff, res, reminder, now);
      && (s.status != Unknown ==> s'.status != Unknown)
      && (res.ok && !t.ignored ==> s'.status != Unknown)
      && (t.sendDown ==> s'.alertSent)
      && (s.status == Down && s'.status == Down ==> s'.alertSent == s.alertSent)
  {
  }

  lemma NextIsUnannounced(w: World, os: seq<Outcome>)
    requires Ledger(w, os)
    ensures !DownBefore(os, |os|, w.next)
  {
  }

  lemma ProbeKeepsCandid(w: World, os: seq<Outcome>, eff: Effective, res: Result, reminder: int, now: int, d: int)
    requires Consistent(w) && res.device in w.rows && d in w.rows && Ledger(w, os) && AllCandid(w, os)
    ensures var (w', o) := Evaluate(w, Some(eff), res, reminder, now);
      Candid(w', os + [o], d)
  {
    var (w', o) := Evaluate(w, Some(eff), res, reminder, now);
    var s := SnapOf(w, res.device);
    assert InStep(w, res.device) && InStep(w, d) && Candid(w, os, d);
    OutageIsNumbered(w, res.device);
    OutageIsNumbered(w, d);
    StepAlerts(s, eff, res, reminder, now);
    StepMatches(s, eff, res, reminder, now);
    StepRemembers(s, eff, res, reminder, now);
    ExactlyMore(os, o, d, SnapOf(w', d).incident);
    NextIsUnannounced(w, os);
  }

  lemma StepKeepsCandid(w: World, os: seq<Outcome>, e: Event)
    requires Consistent(w) && Known(w, [e]) && Ledger(w, os) && AllCandid(w, os)
    ensures AllCandid(After(w, e), os + Outcomes(w, e))
  {
    assert [e][0] == e;
    forall d | d in After(w, e).rows ensures Candid(After(w, e), os + Outcomes(w, e), d) {
      assert Candid(w, os, d);
      match e
      case Probe(eff, res, reminder, now) =>
        if eff.Some? {
          ProbeKeepsCandid(w, os, eff.value, res, reminder, now, d);
        } else {
          ExactlyMore(os, Evaluate(w, eff, res, reminder, now).1, d, SnapOf(w, d).incident);
        }
      case Restart =>
        assert os + [] == os && InStep(w, d);
      case Retain(_) =>
        assert os + [] == os;
    }
  }

  lemma {:induction false} RunKeepsCandid(w: World, es: seq<Event>)
    requires Untouched(w) && Known(w, es)
    ensures AllCandid(Run(w, es).0, Run(w, es).1)
    ensures Ledger(Run(w, es).0, Run(w, es).1) && Consistent(Run(w, es).0)
  {
    RunKeepsLedger(w, es);
    RunKeepsConsistent(w, es);
    if es != [] {
      var n := |es| - 1;
      RunKeepsCandid(w, es[..n]);
      RunKeepsConsistent(w, es[..n]);
      assert [es[n]][0] == es[n];
      StepKeepsCandid(Run(w, es[..n]).0, Run(w, es[..n]).1, es[n]);
    }
  }

  /**
    Over any run, restarts included: DOWN is decided exactly when an incident opens, notifying is
    on, and the device was seen up before; RECOVERY exactly when an incident closes, notifying is
    on, and DOWN was decided for that incident.
  */
  lemma DecidedIff(w: World, es: seq<Event>, eff: Effective, res: Result, reminder: int, now: int)
    requires Untouched(w) && Known(w, es) && res.device in w.rows
    ensures var (v, os) := Run(w, es);
      var t := Evaluate(v, Some(eff), res, reminder, now).1.transition;
      && (t.sendDown <==> t.openIncident && eff.notify && SuccessBefore(os, |os|, res.device))
      && (t.sendRecovery <==> t.closeIncident && eff.notify && DownBefore(os, |os|, t.incident))
  {
    RunKeepsConsistent(w, es);
    RunKeepsCandid(w, es);
    var (v, os) := Run(w, es);
    var s := SnapOf(v, res.device);
    assert Candid(v, os, res.device) && Backed(v, os, res.device) && InStep(v, res.device);
    OutageIsNumbered(v, res.device);
    StepAlerts(s, eff, res, reminder, now);
    StepMatches(s, eff, res, reminder, now);
  }

  /**
    Over any run: a DOWN mail for incident i leaves exactly when i opens there, somebody is to be
    told, and the device answered before; a RECOVERY mail exactly when i closes there, somebody is
    to be told, and DOWN was decided for i.
  */
  lemma MailsOverRuns(w: World, es: seq<Event>, eff: Effective, res: Result, reminder: int, now: int, i: int)
    requires Untouched(w) && Known(w, es) && res.device in w.rows
    ensures var (v, os) := Run(w, es);
      var (v', o) := Evaluate(v, Some(eff), res, reminder, now);
      var told := eff.notify && eff.recipients != [];
      && (o.mail == DownMail(i) <==> told && Opens(v, v', res.device, i) && SuccessBefore(os, |os|, res.device))
      && (o.mail == RecoveryMail(i) <==> told && Closes(v, v', res.device, i) && DownBefore(os, |os|, i))
  {
    hide Opens, Closes, Stands, SuccessBefore, DownBefore, Evaluate;
    RunKeepsConsistent(w, es);
    var v := Run(w, es).0;
    DecidedIff(w, es, eff, res, reminder, now);
    MailIff(v, eff, res, reminder, now, i);
    TransitionNamesIncident(v, eff, res, reminder, now, i);
  }

  // ---- Reminders, both ways --------------------------------------------------------

  /** An announced outage was last announced when the live state says it was. */
  ghost predicate Recalled(w: World, os: seq<Outcome>, d: int) {
    var s := SnapOf(w, d);
    s.alertSent ==>
      && s.lastAlert.Some?
      && exists k :: 0 <= k < |os| && Alert(os[k]) && os[k].transition.incident == s.incident && os[k].now == s.lastAlert.value
  }

  ghost predicate AllRecalled(w: World, os: seq<Outcome>) {
    forall d :: d in w.rows ==> Recalled(w, os, d)
  }

  lemma RecalledLater(w: World, os: seq<Outcome>, o: Outcome, d: int)
    requires Recalled(w, os, d)
    ensures Recalled(w, os + [o], d)
  {
    var s := SnapOf(w, d);
    if s.alertSent {
      var k :| 0 <= k < |os| && Alert(os[k]) && os[k].transition.incident == s.incident && os[k].now == s.lastAlert.value;
      assert (os + [o])[k] == os[k];
    }
  }

  lemma ProbeKeepsRecalled(w: World, os: seq<Outcome>, eff: Effective, res: Result, reminder: int, now: int, d: int)
    requires Consistent(w) && res.device in w.rows && d in w.rows && AllRecalled(w, os)
    ensures var (w', o) := Evaluate(w, Some(eff), res, reminder, now);
      Recalled(w', os + [o], d)
  {
    var (w', o) := Evaluate(w, Some(eff), res, reminder, now);
    var s := SnapOf(w, res.device);
    assert InStep(w, res.device) && Recalled(w, os, d);
    RecalledLater(w, os, o, d);
    OutageIsNumbered(w, res.device);
    StepAlerts(s, eff, res, reminder, now);
    StepReminders(s, eff, res, reminder, now);
    StepMatches(s, eff, res, reminder, now);
    assert (os + [o])[|os|] == o;
  }

  lemma {:induction false} RunKeepsRecalled(w: World, es: seq<Event>, interval: int)
    requires Untouched(w) && Known(w, es) && OneProcess(es, interval)
    ensures AllRecalled(Run(w, es).0, Run(w, es).1)
  {
    if es != [] {
      var n := |es| - 1;
      RunKeepsRecalled(w, es[..n], interval);
      RunKeepsConsistent(w, es[..n]);
      var (v, os) := Run(w, es[..n]);
      var e := es[n];
      forall d | d in After(v, e).rows ensures Recalled(After(v, e), os + Outcomes(v, e), d) {
        assert Recalled(v, os, d);
        if e.Probe? && e.eff.Some? {
          ProbeKeepsRecalled(v, os, e.eff.value, e.res, e.reminder, e.now, d);
        } else if e.Probe? {
          RecalledLater(v, os, Evaluate(v, e.eff, e.res, e.reminder, e.now).1, d);
        } else {
          assert os + [] == os;
        }
      }
    }
  }

  lemma StepRemindsIff(s: Snap, eff: Effective, res: Result, reminder: int, now: int)
    ensures Step(s, eff, res, reminder, now).1.sendReminder
      <==> !res.canceled && !res.ok && s.status == Down && eff.notify && s.alertSent
           && reminder > 0 && s.lastAlert.Some? && now - s.lastAlert.value >= reminder
  {
  }

  /**
    Within one process a reminder is decided exactly on a failed probe of a device that is down and
    whose outage was announced, if notifying and reminders are on and no alert of that outage is
    younger than the interval.
  */
  lemma RemindedIff(w: World, es: seq<Event>, eff: Effective, res: Result, interval: int, now: int)
    requires Untouched(w) && Known(w, es) && OneProcess(es, interval) && res.device in w.rows
    ensures var (v, os) := Run(w, es);
      var s := SnapOf(v, res.device);
      Evaluate(v, Some(eff), res, interval, now).1.transition.sendReminder
      <==> !res.canceled && !res.ok && eff.notify && interval > 0
           && s.status == Down && DownBefore(os, |os|, s.incident)
           && (forall k :: 0 <= k < |os| && Alert(os[k]) && os[k].transition.incident == s.incident ==> now - os[k].now >= interval)
  {
    RunKeepsConsistent(w, es);
    RunKeepsCandid(w, es);
    RunKeepsRecalled(w, es, interval);
    forall d | d in w.rows ensures Dated(w, [], d) {
      assert InStep(w, d);
    }
    RunKeepsDiary(w, es, interval);
    var (v, os) := Run(w, es);
    var s := SnapOf(v, res.device);
    assert Candid(v, os, res.device) && Backed(v, os, res.device) && Dated(v, os, res.device) && Recalled(v, os, res.device);
    StepRemindsIff(s, eff, res, interval, now);
  }

  // ---- Rows and notices ------------------------------------------------------------

  /** The row of an incident that opens: from the first failure of the streak, with this probe's reason. */
  lemma OpenedRowIs(v: World, eff: Effective, res: Result, reminder: int, now: int, i: int)
    requires Consistent(v) && res.device in v.rows
    ensures var (v', o) := Evaluate(v, Some(eff), res, reminder, now);
      Opens(v, v', res.device, i) ==>
        var row := OpenRows(v'.incidents, res.device)[0];
        && (forall k :: 0 <= k < |v.incidents| ==> v.incidents[k].id != i)
        && row.started == SnapOf(v, res.device).firstFailure.GetOr(res.at)
        && row.detected == res.at && row.cause == res.error && !row.recoverySent
        && row.alertSent == o.transition.sendDown
        && row.lastAlert == (if o.mail.DownMail? then Some(now) else if o.transition.sendDown then Some(res.at) else None)
  {
    TransitionNamesIncident(v, eff, res, reminder, now, i);
    var (v', o) := Evaluate(v, Some(eff), res, reminder, now);
    if Opens(v, v', res.device, i) {
      var t := o.transition;
      StepOpens(SnapOf(v, res.device), eff, res, reminder, now);
      OpenRowsAfterOpening(v.incidents, v.next, NewIncident(v.next, res.device, res, t), o.mail.DownMail?, now, res.device);
    }
  }

  lemma StepOpens(s: Snap, eff: Effective, res: Result, reminder: int, now: int)
    ensures var t := Step(s, eff, res, reminder, now).1;
      && (t.openIncident ==> t.incidentStart == Some(s.firstFailure.GetOr(res.at)) && t.cause == res.error)
      && (t.closeIncident ==> t.downtime == now - s.incidentStart.GetOr(0) && t.incidentStart == s.incidentStart)
      && (t.changed <==> t.prior != t.next)
      && (!t.ignored ==> t.prior == s.status && t.next == Step(s, eff, res, reminder, now).0.status)
      && (t.openIncident || t.closeIncident ==> t.changed)
      && (t.ignored <==> res.canceled)
  {
  }

  /** The row of an incident that closes: over at this probe, with its length and whether that is announced. */
  lemma ClosedRowIs(v: World, eff: Effective, res: Result, reminder: int, now: int, k: nat)
    requires Consistent(v) && res.device in v.rows && k < |v.incidents|
    ensures var (v', o) := Evaluate(v, Some(eff), res, reminder, now);
      var was := v.incidents[k];
      Closes(v, v', res.device, was.id) ==>
        && |v'.incidents| == |v.incidents|
        && o.transition.downtime == now - was.started
        && v'.incidents[k] == was.(resolved := Some(res.at), duration := Some(res.at - was.started),
                                   recoverySent := o.transition.sendRecovery)
  {
    var (v', o) := Evaluate(v, Some(eff), res, reminder, now);
    var was := v.incidents[k];
    TransitionNamesIncident(v, eff, res, reminder, now, was.id);
    if Closes(v, v', res.device, was.id) {
      var open := OpenRows(v.incidents, res.device)[0];
      assert InStep(v, res.device) && open in OpenRows(v.incidents, res.device);
      SameIdSameRow(v.incidents, v.next, was, open);
      StepOpens(SnapOf(v, res.device), eff, res, reminder, now);
      StepMatches(SnapOf(v, res.device), eff, res, reminder, now);
      OutageIsNumbered(v, res.device);
    }
  }

  /** The heartbeat is up exactly when the probe succeeded, and carries its time and latency. */
  lemma HeartbeatIs(v: World, eff: Effective, res: Result, reminder: int, now: int)
    ensures var o := Evaluate(v, Some(eff), res, reminder, now).1;
      E.BeatsFrom(res, o) == if res.canceled then [] else [Beat(res.device, res.ok, res.latency, res.at)]
  {
    StepOpens(SnapOf(v, res.device), eff, res, reminder, now);
  }

  /**
    The dashboards are told of every heartbeat, and right after it of a status exactly when it
    changed, from the old to the new one.
  */
  lemma NoticesAre(v: World, eff: Effective, res: Result, reminder: int, now: int)
    requires Consistent(v) && res.device in v.rows
    ensures var (v', o) := Evaluate(v, Some(eff), res, reminder, now);
      var told := E.Notices(res, o);
      var from, next := SnapOf(v, res.device).status, SnapOf(v', res.device).status;
      && (told == [] <==> res.canceled)
      && (!res.canceled ==> told[0] == E.Seen(Beat(res.device, res.ok, res.latency, res.at)))
      && (!res.canceled ==> (|told| > 1 <==> from != next))
      && (!res.canceled && from != next ==> told[1] == E.Changed(res.device, from, next, o.transition.incident))
  {
    var s := SnapOf(v, res.device);
    assert InStep(v, res.device);
    StepOpens(s, eff, res, reminder, now);
  }

  /** Last they are told of the incident that opened or closed there, if any. */
  lemma IncidentNoticeIs(v: World, eff: Effective, res: Result, reminder: int, now: int, i: int)
    requires Consistent(v) && res.device in v.rows
    ensures var (v', o) := Evaluate(v, Some(eff), res, reminder, now);
      var told := E.Notices(res, o);
      && (Opens(v, v', res.device, i) ==>
            |told| == 3 && told[2] == E.Opened(i, res.device, Some(OpenRows(v'.incidents, res.device)[0].started)))
      && (Closes(v, v', res.device, i) ==>
            |told| == 3 && told[2] == E.Resolved(i, res.device, res.at, now - OpenRows(v.incidents, res.device)[0].started))
      && (|told| == 3 ==> o.transition.openIncident || o.transition.closeIncident)
  {
    hide Step, MarkAlerted, Resolve, OpenRows, MailFor, Recorded, Numbered;
    var s := SnapOf(v, res.device);
    assert InStep(v, res.device);
    OutageIsNumbered(v, res.device);
    TransitionNamesIncident(v, eff, res, reminder, now, i);
    OpenedRowIs(v, eff, res, reminder, now, i);
    StepOpens(s, eff, res, reminder, now);
    StepMatches(s, eff, res, reminder, now);
  }

  /** A probe leaves the live state, the row and the incidents of every other device alone. */
  lemma OthersAreUntouched(v: World, eff: Effective, res: Result, reminder: int, now: int, k: nat)
    requires Consistent(v) && res.device in v.rows && k < |v.incidents|
    ensures var v' := Evaluate(v, Some(eff), res, reminder, now).0;
      && (forall d :: d != res.device ==> SnapOf(v', d) == SnapOf(v, d))
      && (forall d :: d != res.device && d in v.rows ==> d in v'.rows && v'.rows[d] == v.rows[d])
      && |v.incidents| <= |v'.incidents|
      && (v.incidents[k].device != res.device || v.incidents[k].resolved.Some? ==> v'.incidents[k] == v.incidents[k])
  {
    hide Step;
    var s := SnapOf(v, res.device);
    var row := v.incidents[k];
    var o := Evaluate(v, Some(eff), res, reminder, now).1;
    assert InStep(v, res.device);
    OutageIsNumbered(v, res.device);
    StepMatches(s, eff, res, reminder, now);
    StepAlerts(s, eff, res, reminder, now);
    if o.transition.closeIncident {
      var open := OpenRows(v.incidents, res.device)[0];
      assert open in OpenRows(v.incidents, res.device);
      if row.id == open.id {
        SameIdSameRow(v.incidents, v.next, row, open);
      }
    }
  }
}
