/** Restarting the service between two probes changes nothing but the timing of reminders. */
module Restarts {
  import opened Base
  import opened Model
  import opened State
  import opened Incidents
  import opened Lifecycle

  predicate SameButLastAlert(a: Snap, b: Snap) {
    a.(lastAlert := None) == b.(lastAlert := None)
  }

  /** Same tables; in memory the same state, except for when the last alert went out. */
  ghost predicate Alike(v: World, w: World) {
    && v.rows == w.rows && v.incidents == w.incidents && v.next == w.next
    && forall d :: d in v.rows ==> SameButLastAlert(SnapOf(v, d), SnapOf(w, d))
  }

  /** An outcome with a reminder, if it had one, taken out. */
  function WithoutReminder(o: Outcome): Outcome {
    if o.transition.sendReminder
    then o.(transition := o.transition.(sendReminder := false, incident := 0), mail := NoMail)
    else o
  }

  predicate ReminderDue(s: Snap, eff: Effective, res: Result, reminder: int, now: int) {
    && !res.canceled && !res.ok && s.status == Down && reminder > 0 && s.alertSent
    && s.lastAlert.Some? && now - s.lastAlert.value >= reminder && eff.notify
  }

  lemma StepIgnoresLastAlert(a: Snap, b: Snap, eff: Effective, res: Result, reminder: int, now: int)
    requires SameButLastAlert(a, b)
    ensures var (a', t) := Step(a, eff, res, reminder, now);
      var (b', u) := Step(b, eff, res, reminder, now);
      && SameButLastAlert(a', b')
      && (t.sendReminder <==> ReminderDue(a, eff, res, reminder, now))
      && t.(sendReminder := false, incident := 0) == u.(sendReminder := false, incident := 0)
      && (!t.sendReminder && !u.sendReminder ==> t == u)
      && (t.sendReminder ==> !t.changed && !t.openIncident && !t.closeIncident && !t.sendDown && !t.sendRecovery)
      && (t.sendReminder && u.sendReminder ==> t == u)
      && (t.sendReminder && !u.sendReminder ==> u.incident == 0 && !u.openIncident && !u.closeIncident)
  {
  }

  lemma ProbeAlike(v: World, w: World, eff: Effective, res: Result, reminder: int, now: int)
    requires Alike(v, w) && res.device in v.rows
    ensures var (v', o) := Evaluate(v, Some(eff), res, reminder, now);
      var (w', p) := Evaluate(w, Some(eff), res, reminder, now);
      && Alike(v', w')
      && WithoutReminder(o) == WithoutReminder(p)
      && (o == p <==> o.transition.sendReminder == p.transition.sendReminder)
  {
    var a, b := SnapOf(v, res.device), SnapOf(w, res.device);
    StepIgnoresLastAlert(a, b, eff, res, reminder, now);
    StepIgnoresLastAlert(b, a, eff, res, reminder, now);
    var (v', o) := Evaluate(v, Some(eff), res, reminder, now);
    var (w', p) := Evaluate(w, Some(eff), res, reminder, now);
    assert v'.incidents == w'.incidents;
    forall d | d in v'.rows
      ensures SameButLastAlert(SnapOf(v', d), SnapOf(w', d))
    {
      assert d != res.device ==> SnapOf(v', d) == SnapOf(v, d) && SnapOf(w', d) == SnapOf(w, d);
    }
  }

  /** What is rebuilt from the tables is what was in memory. */
  lemma RestartAlike(w: World)
    requires Consistent(w)
    ensures Alike(w, After(w, Restart))
  {
    var w' := After(w, Restart);
    forall d | d in w.rows
      ensures SameButLastAlert(SnapOf(w, d), SnapOf(w', d))
    {
      assert InStep(w, d);
    }
  }

  function WithoutRestarts(es: seq<Event>): seq<Event> {
    if es == [] then []
    else
      var n := |es| - 1;
      if es[n].Restart? then WithoutRestarts(es[..n]) else WithoutRestarts(es[..n]) + [es[n]]
  }

  lemma {:induction false} RunAlike(w: World, es: seq<Event>)
    requires Consistent(w) && Known(w, es)
    ensures var (w1, o1) := Run(w, es);
      var (w2, o2) := Run(w, WithoutRestarts(es));
      && Alike(w1, w2)
      && |o1| == |o2|
      && (forall k :: 0 <= k < |o1| ==> WithoutReminder(o1[k]) == WithoutReminder(o2[k]))
  {
    if es != [] {
      var n := |es| - 1;
      var e := es[n];
      RunAlike(w, es[..n]);
      RunKeepsConsistent(w, es[..n]);
      var (w1, o1) := Run(w, es[..n]);
      var (w2, o2) := Run(w, WithoutRestarts(es[..n]));
      var kept := WithoutRestarts(es[..n]);
      assert (kept + [e])[..|kept|] == kept;
      match e
      case Probe(eff, res, reminder, now) =>
        if eff.Some? {
          ProbeAlike(w1, w2, eff.value, res, reminder, now);
        }
      case Restart =>
        RestartAlike(w1);
      case Retain(_) =>
    }
  }

  /**
    Over any run, taking all restarts out leaves both tables and every transition, DOWN mail
    and RECOVERY mail as they were.
  */
  lemma RestartsAreTransparent(w: World, es: seq<Event>)
    requires Consistent(w) && Known(w, es)
    ensures var (w1, o1) := Run(w, es);
      var (w2, o2) := Run(w, WithoutRestarts(es));
      && w1.rows == w2.rows && w1.incidents == w2.incidents
      && |o1| == |o2|
      && (forall k :: 0 <= k < |o1| ==> WithoutReminder(o1[k]) == WithoutReminder(o2[k]))
  {
    RunAlike(w, es);
  }

  ghost predicate RemindersOff(es: seq<Event>) {
    forall k :: 0 <= k < |es| && es[k].Probe? ==> es[k].reminder <= 0
  }

  lemma {:induction false} NoReminders(w: World, es: seq<Event>)
    requires RemindersOff(es)
    ensures forall o :: o in Run(w, es).1 ==> !o.transition.sendReminder
  {
    if es != [] {
      NoReminders(w, es[..|es| - 1]);
    }
  }

  lemma {:induction false} RemindersStayOff(es: seq<Event>)
    requires RemindersOff(es)
    ensures RemindersOff(WithoutRestarts(es))
  {
    if es != [] {
      RemindersStayOff(es[..|es| - 1]);
    }
  }

  /** With reminders off the whole history of decisions is unchanged. */
  lemma RestartsAreInvisibleWithoutReminders(w: World, es: seq<Event>)
    requires Consistent(w) && Known(w, es) && RemindersOff(es)
    ensures Run(w, es).1 == Run(w, WithoutRestarts(es)).1
  {
    RunAlike(w, es);
    NoReminders(w, es);
    RemindersStayOff(es);
    NoReminders(w, WithoutRestarts(es));
    var o1, o2 := Run(w, es).1, Run(w, WithoutRestarts(es)).1;
    forall k | 0 <= k < |o1| ensures o1[k] == o2[k] {
      assert o1[k] in o1 && o2[k] in o2;
      assert WithoutReminder(o1[k]) == WithoutReminder(o2[k]);
    }
  }

  /**
    A restart just before a probe changes what that probe decides exactly when the time of the
    last alert in memory and the one in the incident table disagree on whether a reminder is due.
  */
  lemma RestartShiftsOnlyReminders(w: World, eff: Effective, res: Result, reminder: int, now: int)
    requires Consistent(w) && res.device in w.rows
    ensures var s := SnapOf(w, res.device);
      var r := SnapOf(After(w, Restart), res.device);
      Evaluate(w, Some(eff), res, reminder, now).1 == Evaluate(After(w, Restart), Some(eff), res, reminder, now).1
      <==> (ReminderDue(s, eff, res, reminder, now) <==> ReminderDue(r, eff, res, reminder, now))
  {
    RestartAlike(w);
    var s, r := SnapOf(w, res.device), SnapOf(After(w, Restart), res.device);
    StepIgnoresLastAlert(s, r, eff, res, reminder, now);
    StepIgnoresLastAlert(r, s, eff, res, reminder, now);
    ProbeAlike(w, After(w, Restart), eff, res, reminder, now);
  }

  /**
    A reminder is remembered only in memory: after one at second 700 a restart at second 800
    forgets it, and the next one goes out 200 seconds later instead of 600.
  */
  lemma RestartRepeatsReminder(eff: Effective)
    requires eff.device == 1 && eff.notify && eff.recipients != []
    ensures var down := Snap(Down, 5, 0, Some(0), 1, Some(0), true, Some(700));
      var i := Incident(1, 1, 0, 90, None, None, "", true, false, Some(90));
      var w := World(map[1 := down], map[1 := LiveOf(down)], [i], 2);
      var res := Result(1, false, false, 900, "", 0);
      && Consistent(w)
      && Evaluate(w, Some(eff), res, 600, 900).1.mail == NoMail
      && Evaluate(After(w, Restart), Some(eff), res, 600, 900).1.mail == ReminderMail(1)
  {
    var i := Incident(1, 1, 0, 90, None, None, "", true, false, Some(90));
    assert [i][1..] == [];
    assert OpenRows([i], 1) == [i];
  }
}
