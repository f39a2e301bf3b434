/**
  The incident lifecycle over whole runs: probe results, settings that change at every
  step, disabled devices, retention passes and service restarts. The live state is split
  between the device table and the incident table and rebuilt from them on restart.
*/
module Lifecycle {
  import opened Base
  import opened Model
  import opened State
  import opened Incidents

  /** The live columns of the device table. */
  datatype LiveRow = LiveRow(status: Status, failures: int, successes: int, firstFailure: Option<int>)

  datatype World = World(
    snaps: map<int, Snap>,
    rows: map<int, LiveRow>,
    incidents: seq<Incident>,
    next: int)

  function LiveOf(s: Snap): LiveRow {
    LiveRow(s.status, s.failures, s.successes, s.firstFailure)
  }

  function SnapOf(w: World, device: int): Snap {
    if device in w.snaps then w.snaps[device] else FRESH
  }

  // ---- One evaluated probe ---------------------------------------------------

  datatype Mail = NoMail | DownMail(incident: int) | RecoveryMail(incident: int) | ReminderMail(incident: int)

  /** What one probe led to; `acted` is false when the device had left the effective set. */
  datatype Outcome = Outcome(acted: bool, device: int, ok: bool, now: int, transition: Transition, mail: Mail)

  function NewIncident(id: int, device: int, res: Result, t: Transition): Incident {
    Incident(id, device, t.incidentStart.GetOr(0), res.at, None, None, t.cause, t.sendDown, false,
             if t.sendDown then Some(res.at) else None)
  }

  /** The snapshot and transition once the incident table has been written. */
  function Numbering(s: Snap, t: Transition, next: int): (Snap, Transition) {
    if t.openIncident then (s.(incident := next), t.(incident := next)) else (s, t)
  }

  function Recorded(rows: seq<Incident>, next: int, res: Result, t: Transition): seq<Incident> {
    if t.openIncident then rows + [NewIncident(next, res.device, res, t)]
    else if t.closeIncident && t.incident != 0 then Resolve(rows, t.incident, res.at, t.sendRecovery)
    else rows
  }

  function MailFor(t: Transition, eff: Effective): Mail {
    if eff.recipients == [] then NoMail
    else if t.sendDown then DownMail(t.incident)
    else if t.sendRecovery then RecoveryMail(t.incident)
    else if t.sendReminder then ReminderMail(t.incident)
    else NoMail
  }

  function Evaluate(w: World, eff: Option<Effective>, res: Result, reminder: int, now: int): (World, Outcome) {
    if eff.None? then
      (w, Outcome(false, res.device, res.ok, now, Quiet(Unknown), NoMail))
    else
      var (s0, t0) := Step(SnapOf(w, res.device), eff.value, res, reminder, now);
      if t0.ignored then
        (w.(snaps := w.snaps[res.device := s0]), Outcome(true, res.device, res.ok, now, t0, NoMail))
      else
        var (s, t) := Numbering(s0, t0, w.next);
        var mail := MailFor(t, eff.value);
        var written := Recorded(w.incidents, w.next, res, t);
        (World(w.snaps[res.device := s],
               w.rows[res.device := LiveOf(s)],
               if mail.DownMail? then MarkAlerted(written, t.incident, now) else written,
               if t.openIncident then w.next + 1 else w.next),
         Outcome(true, res.device, res.ok, now, t, mail))
  }

  // ---- Restart ---------------------------------------------------------------

  /** A snapshot rebuilt from the two tables. */
  function Rebuilt(row: LiveRow, open: seq<Incident>): Snap {
    var s := FRESH.(status := row.status, failures := row.failures, successes := row.successes,
                    firstFailure := row.firstFailure);
    if open == [] then s
    else
      var i := open[|open| - 1];
      s.(incident := i.id, incidentStart := Some(i.started), alertSent := i.alertSent, lastAlert := i.lastAlert)
  }

  function Load(w: World): map<int, Snap> {
    map d | d in w.rows :: Rebuilt(w.rows[d], OpenRows(w.incidents, d))
  }

  /** A restart remembers that the open incident was announced, and when. */
  lemma MarkSurvivesRestart(rows: seq<Incident>, id: int, at: int, row: LiveRow, device: int)
    requires OpenRows(rows, device) != [] && OpenRows(rows, device)[|OpenRows(rows, device)| - 1].id == id
    ensures var was, now := Rebuilt(row, OpenRows(rows, device)), Rebuilt(row, OpenRows(MarkAlerted(rows, id, at), device));
      now == was.(alertSent := true, lastAlert := Some(at)) && now.incident == id
  {
    OpenRowsMark(rows, id, at, device);
  }

  /** A restart after a device's only open incident was closed finds none. */
  lemma CloseSurvivesRestart(rows: seq<Incident>, id: int, at: int, sent: bool, row: LiveRow, device: int)
    requires |OpenRows(rows, device)| == 1 && OpenRows(rows, device)[0].id == id
    ensures var now := Rebuilt(row, OpenRows(Resolve(rows, id, at, sent), device));
      now.incident == 0 && now.incidentStart == None && !now.alertSent && now.lastAlert == None
  {
    OpenRowsResolve(rows, id, at, sent, device);
  }

  // ---- Runs ------------------------------------------------------------------

  datatype Event =
    | Probe(eff: Option<Effective>, res: Result, reminder: int, now: int)
    | Restart
    | Retain(before: int)

  function After(w: World, e: Event): World {
    match e
    case Probe(eff, res, reminder, now) => Evaluate(w, eff, res, reminder, now).0
    case Restart => w.(snaps := Load(w))
    case Retain(before) => w.(incidents := Retained(w.incidents, before))
  }

  function Outcomes(w: World, e: Event): seq<Outcome> {
    if e.Probe? then [Evaluate(w, e.eff, e.res, e.reminder, e.now).1] else []
  }

  function Run(w: World, es: seq<Event>): (World, seq<Outcome>) {
    if es == [] then (w, [])
    else
      var n := |es| - 1;
      var (w', o) := Run(w, es[..n]);
      (After(w', es[n]), o + Outcomes(w', es[n]))
  }

  /** Only devices of the table are probed. */
  ghost predicate Known(w: World, es: seq<Event>) {
    forall k :: 0 <= k < |es| && es[k].Probe? && es[k].eff.Some? ==> es[k].res.device in w.rows
  }

  // ---- One open incident, exactly while DOWN ---------------------------------

  /** The snapshot and the open incidents of its device describe the same outage. */
  predicate Matches(s: Snap, open: seq<Incident>) {
    if s.status == Down then
      && |open| == 1
      && s.incident == open[0].id
      && s.incidentStart == Some(open[0].started)
      && s.alertSent == open[0].alertSent
    else
      open == [] && s.incident == 0 && s.incidentStart == None && !s.alertSent && s.lastAlert == None
  }

  predicate InStep(w: World, d: int)
    requires d in w.rows
  {
    w.rows[d] == LiveOf(SnapOf(w, d)) && w.rows[d].failures >= 0 && Matches(SnapOf(w, d), OpenRows(w.incidents, d))
  }

  ghost predicate Consistent(w: World) {
    && 0 < w.next
    && Numbered(w.incidents, w.next)
    && (forall d :: d in w.rows ==> InStep(w, d))
  }

  lemma StepMatches(s: Snap, eff: Effective, res: Result, reminder: int, now: int)
    requires s.status != Down ==> s.incident == 0 && s.incidentStart == None && !s.alertSent && s.lastAlert == None
    requires s.status == Down ==> s.incident != 0
    ensures var (s', t) := Step(s, eff, res, reminder, now);
      && (t.ignored ==> s' == s)
      && (t.openIncident <==> s.status != Down && s'.status == Down)
      && (t.closeIncident <==> s.status == Down && s'.status != Down)
      && (s'.status != Down ==> s'.incident == 0 && s'.incidentStart == None && !s'.alertSent && s'.lastAlert == None)
      && (s.status == Down && s'.status == Down ==>
            s'.incident == s.incident && s'.incidentStart == s.incidentStart && s'.alertSent == s.alertSent)
      && (t.openIncident ==> t.incidentStart.Some? && s'.incidentStart == t.incidentStart && s'.alertSent == t.sendDown)
      && (t.closeIncident ==> t.incident == s.incident)
      && (t.sendDown ==> t.openIncident)
      && (s.failures >= 0 ==> s'.failures >= 0)
  {
  }

  lemma SameIdSameRow(rows: seq<Incident>, next: int, a: Incident, b: Incident)
    requires Numbered(rows, next) && a in rows && b in rows && a.id == b.id
    ensures a == b
  {
    var j :| 0 <= j < |rows| && rows[j] == a;
    var k :| 0 <= k < |rows| && rows[k] == b;
    assert j < k ==> Earlier(rows[j], rows[k]);
    assert k < j ==> Earlier(rows[k], rows[j]);
  }

  lemma MarkNewest(rows: seq<Incident>, i: Incident, at: int)
    requires forall k :: 0 <= k < |rows| ==> rows[k].id != i.id
    ensures MarkAlerted(rows, i.id, at) == rows
    ensures MarkAlerted(rows + [i], i.id, at) == rows + [MarkedRow(i, i.id, at)]
  {
  }

  /** Opening an incident adds one open row to its own device, marked or not, and changes no other device. */
  lemma OpenRowsAfterOpening(rows: seq<Incident>, next: int, i: Incident, marked: bool, now: int, d: int)
    requires Numbered(rows, next) && i.id == next && i.resolved.None?
    ensures var written := if marked then MarkAlerted(rows + [i], next, now) else rows + [i];
      OpenRows(written, d)
      == if d == i.device then OpenRows(rows, d) + [if marked then MarkedRow(i, next, now) else i] else OpenRows(rows, d)
  {
    OpenRowsAppend(rows, i, d);
    if marked {
      MarkNewest(rows, i, now);
      OpenRowsAppend(rows, MarkedRow(i, next, now), d);
    }
  }

  /** Closing the only open incident of one device changes no other device. */
  lemma OpenRowsAfterClosing(rows: seq<Incident>, next: int, device: int, id: int, at: int, sent: bool, d: int)
    requires Numbered(rows, next)
    requires |OpenRows(rows, device)| == 1 && OpenRows(rows, device)[0].id == id
    requires |OpenRows(rows, d)| <= 1
    ensures OpenRows(Resolve(rows, id, at, sent), d) == if d == device then [] else OpenRows(rows, d)
  {
    var open, mine := OpenRows(rows, d), OpenRows(rows, device);
    OpenRowsResolve(rows, id, at, sent, d);
    assert mine[0] in mine;
    if d != device && open != [] {
      assert open[0] in open;
      assert open[0].id != id by {
        if open[0].id == id {
          SameIdSameRow(rows, next, open[0], mine[0]);
        }
      }
    }
  }

  /** Every device after a probe of one of them. */
  lemma ProbeKeepsInStep(w: World, eff: Effective, res: Result, reminder: int, now: int, d: int)
    requires Consistent(w) && res.device in w.rows && d in w.rows
    ensures var w' := Evaluate(w, Some(eff), res, reminder, now).0;
      d in w'.rows && InStep(w', d)
  {
    hide Step;
    var (w', o) := Evaluate(w, Some(eff), res, reminder, now);
    var s := SnapOf(w, res.device);
    var t := o.transition;
    assert InStep(w, res.device) && InStep(w, d);
    assert s.status == Down ==> OpenRows(w.incidents, res.device)[0] in w.incidents;
    StepMatches(s, eff, res, reminder, now);
    if t.openIncident {
      OpenRowsAfterOpening(w.incidents, w.next, NewIncident(w.next, res.device, res, t), o.mail.DownMail?, now, d);
    } else if t.closeIncident {
      OpenRowsAfterClosing(w.incidents, w.next, res.device, t.incident, res.at, t.sendRecovery, d);
    }
  }

  lemma NumberedAfterProbe(w: World, eff: Effective, res: Result, reminder: int, now: int)
    requires 0 < w.next && Numbered(w.incidents, w.next)
    ensures var w' := Evaluate(w, Some(eff), res, reminder, now).0;
      w.next <= w'.next && Numbered(w'.incidents, w'.next)
  {
    var (w', o) := Evaluate(w, Some(eff), res, reminder, now);
    var t := o.transition;
    NumberedRecorded(w.incidents, w.next, res, t);
    NumberedMarked(Recorded(w.incidents, w.next, res, t), t.incident, now, w'.next);
  }

  lemma NumberedMarked(rows: seq<Incident>, id: int, at: int, next: int)
    requires Numbered(rows, next)
    ensures Numbered(MarkAlerted(rows, id, at), next)
  {
    SameIdsNumbered(rows, MarkAlerted(rows, id, at), next);
  }

  lemma NumberedRecorded(rows: seq<Incident>, next: int, res: Result, t: Transition)
    requires 0 < next && Numbered(rows, next)
    ensures Numbered(Recorded(rows, next, res, t), if t.openIncident then next + 1 else next)
  {
    var written := Recorded(rows, next, res, t);
    forall j, k | 0 <= j < k < |written|
      ensures Earlier(written[j], written[k])
    {
      assert k < |rows| ==> Earlier(rows[j], rows[k]);
    }
  }

  lemma StepKeepsConsistent(w: World, e: Event)
    requires Consistent(w) && Known(w, [e])
    ensures Consistent(After(w, e)) && After(w, e).rows.Keys == w.rows.Keys
  {
    var w' := After(w, e);
    assert [e][0] == e;
    if e.Probe? && e.eff.Some? {
      NumberedAfterProbe(w, e.eff.value, e.res, e.reminder, e.now);
    } else if e.Retain? {
      RetainedKeepsOrder(w.incidents, e.before, w.next);
    }
    forall d | d in w'.rows
      ensures InStep(w', d)
    {
      assert InStep(w, d);
      match e
      case Probe(eff, res, reminder, now) =>
        if eff.Some? {
          ProbeKeepsInStep(w, eff.value, res, reminder, now, d);
        }
      case Restart =>
      case Retain(before) => OpenRowsRetained(w.incidents, before, d);
    }
  }

  /** Every run keeps at most one open incident per device, open exactly while the device is DOWN. */
  lemma {:induction false} RunKeepsConsistent(w: World, es: seq<Event>)
    requires Consistent(w) && Known(w, es)
    ensures Consistent(Run(w, es).0) && Run(w, es).0.rows.Keys == w.rows.Keys
  {
    if es != [] {
      var n := |es| - 1;
      RunKeepsConsistent(w, es[..n]);
      StepKeepsConsistent(Run(w, es[..n]).0, es[n]);
    }
  }
}
