/** The per-device state machine: consecutive failures and successes with two thresholds. */
module State {
  import opened Base
  import opened Model

  /** Live state of one device. `incident` is 0 when no incident is open. */
  datatype Snap = Snap(
    status: Status,
    failures: int,
    successes: int,
    firstFailure: Option<int>,
    incident: int,
    incidentStart: Option<int>,
    alertSent: bool,
    lastAlert: Option<int>)

  const FRESH := Snap(Unknown, 0, 0, None, 0, None, false, None)

  datatype Transition = Transition(
    ignored: bool,
    prior: Status,
    next: Status,
    changed: bool,
    openIncident: bool,
    closeIncident: bool,
    incidentStart: Option<int>,
    downtime: int,
    incident: int,
    sendDown: bool,
    sendRecovery: bool,
    sendReminder: bool,
    cause: string)

  function Quiet(s: Status): Transition {
    Transition(false, s, s, false, false, false, None, 0, 0, false, false, false, "")
  }

  function ApplySuccess(s: Snap, eff: Effective, now: int): (Snap, Transition) {
    var s1 := s.(successes := s.successes + 1, failures := 0, firstFailure := None);
    var t := Quiet(s.status);
    if s.status == Down && s1.successes >= eff.recoveryThreshold then
      (s1.(status := Up, incident := 0, incidentStart := None, alertSent := false, lastAlert := None),
       if s.incident != 0 then
         t.(next := Up, changed := true, closeIncident := true, incident := s.incident,
            downtime := now - s.incidentStart.GetOr(0), incidentStart := s.incidentStart,
            sendRecovery := eff.notify && s.alertSent)
       else
         t.(next := Up, changed := true))
    else if s.status == Unknown then
      (s1.(status := Up), t.(next := Up, changed := true))
    else
      (s1, t)
  }

  function ApplyFailure(s: Snap, eff: Effective, res: Result, reminder: int, now: int): (Snap, Transition) {
    var s1 := s.(failures := s.failures + 1, successes := 0,
                 firstFailure := if s.firstFailure.None? then Some(res.at) else s.firstFailure);
    var t := Quiet(s.status).(cause := res.error);
    if s.status != Down && s1.failures >= eff.failureThreshold then
      var send := eff.notify && s.status != Unknown;
      (s1.(status := Down, incidentStart := s1.firstFailure, alertSent := send,
           lastAlert := if send then Some(now) else s1.lastAlert),
       t.(next := Down, changed := true, openIncident := true, incidentStart := s1.firstFailure, sendDown := send))
    else if s.status == Down && reminder > 0 && s.alertSent && s.lastAlert.Some?
            && now - s.lastAlert.value >= reminder && eff.notify then
      (s1.(lastAlert := Some(now)), t.(sendReminder := true, incident := s.incident))
    else
      (s1, t)
  }

  /** One probe folded into a snapshot. */
  function Step(s: Snap, eff: Effective, res: Result, reminder: int, now: int): (Snap, Transition) {
    if res.canceled then (s, Quiet(Unknown).(ignored := true))
    else if res.ok then ApplySuccess(s, eff, now)
    else ApplyFailure(s, eff, res, reminder, now)
  }

  /** The snapshot as the evaluator holds it: an object whose fields a probe updates in place. */
  class Snapshot {
    var status: Status
    var failures: int
    var successes: int
    var firstFailure: Option<int>
    var incident: int
    var incidentStart: Option<int>
    var alertSent: bool
    var lastAlert: Option<int>

    constructor (s: Snap)
      ensures View() == s
    {
      status, failures, successes, firstFailure := s.status, s.failures, s.successes, s.firstFailure;
      incident, incidentStart, alertSent, lastAlert := s.incident, s.incidentStart, s.alertSent, s.lastAlert;
    }

    function View(): Snap
      reads this
    {
      Snap(status, failures, successes, firstFailure, incident, incidentStart, alertSent, lastAlert)
    }

    method Apply(eff: Effective, res: Result, reminder: int, now: int) returns (t: Transition)
      modifies this
      ensures (View(), t) == Step(old(View()), eff, res, reminder, now)
    {
      if res.canceled {
        return Quiet(Unknown).(ignored := true);
      }
      t := Quiet(status);
      if res.ok {
        successes := successes + 1;
        failures := 0;
        firstFailure := None;
        if status == Down && successes >= eff.recoveryThreshold {
          t := t.(next := Up, changed := true);
          if incident != 0 {
            t := t.(closeIncident := true, incident := incident, downtime := now - incidentStart.GetOr(0),
                    incidentStart := incidentStart, sendRecovery := eff.notify && alertSent);
          }
          status := Up;
          incident, incidentStart := 0, None;
          alertSent, lastAlert := false, None;
          return;
        }
        if status == Unknown {
          t := t.(next := Up, changed := true);
          status := Up;
        }
        return;
      }
      failures := failures + 1;
      successes := 0;
      if firstFailure.None? {
        firstFailure := Some(res.at);
      }
      t := t.(cause := res.error);
      if status != Down && failures >= eff.failureThreshold {
        var wasUnknown := status == Unknown;
        t := t.(next := Down, changed := true, openIncident := true, incidentStart := firstFailure,
                sendDown := eff.notify && !wasUnknown);
        status := Down;
        incidentStart := firstFailure;
        alertSent := t.sendDown;
        if t.sendDown {
          lastAlert := Some(now);
        }
        return;
      }
      if status == Down && reminder > 0 && alertSent && lastAlert.Some? && now - lastAlert.value >= reminder {
        if eff.notify {
          t := t.(sendReminder := true, incident := incident);
          lastAlert := Some(now);
        }
      }
    }
  }

  // ---- What the counters decide ----------------------------------------------

  /** One evaluated probe; the reminder interval and the clock are whatever they were. */
  datatype Check = Check(res: Result, reminder: int, now: int)

  function Replay(h: seq<Check>, eff: Effective): Snap {
    if h == [] then FRESH
    else
      var c := h[|h| - 1];
      Step(Replay(h[..|h| - 1], eff), eff, c.res, c.reminder, c.now).0
  }

  predicate Ran(h: seq<Check>, lo: int, hi: int, ok: bool)
    requires hi <= |h|
  {
    0 <= lo && forall k :: lo <= k < hi ==> h[k].res.ok == ok
  }

  /** `n` consecutive failures end just before position `e`. */
  predicate Tripped(h: seq<Check>, e: nat, n: int) {
    e <= |h| && Ran(h, e - n, e, false)
  }

  /** `n` consecutive successes end just before position `g`. */
  predicate Cleared(h: seq<Check>, g: nat, n: int) {
    g <= |h| && Ran(h, g - n, g, true)
  }

  /** Some run of `fail` failures has not been followed by a run of `recover` successes. */
  ghost predicate OutageStands(h: seq<Check>, fail: int, recover: int) {
    exists e: nat :: Tripped(h, e, fail) && forall g: nat :: e < g ==> !Cleared(h, g, recover)
  }

  function TrailingRun(h: seq<Check>, ok: bool): (n: nat)
    ensures n <= |h|
  {
    if h == [] || h[|h| - 1].res.ok != ok then 0 else 1 + TrailingRun(h[..|h| - 1], ok)
  }

  lemma {:induction false} TrailingRunIsMaximal(h: seq<Check>, ok: bool)
    ensures var n := TrailingRun(h, ok);
      && Ran(h, |h| - n, |h|, ok)
      && (n < |h| ==> h[|h| - n - 1].res.ok != ok)
  {
    if h != [] && h[|h| - 1].res.ok == ok {
      TrailingRunIsMaximal(h[..|h| - 1], ok);
    }
  }

  lemma RunEndsHere(h: seq<Check>, n: int, ok: bool)
    requires n >= 0
    ensures TrailingRun(h, ok) >= n <==> Ran(h, |h| - n, |h|, ok)
  {
    TrailingRunIsMaximal(h, ok);
  }

  lemma OutageAfterSuccess(h: seq<Check>, c: Check, fail: int, recover: int)
    requires fail >= 1 && recover >= 1 && c.res.ok
    ensures OutageStands(h + [c], fail, recover)
      <==> OutageStands(h, fail, recover) && TrailingRun(h + [c], true) < recover
  {
    var h' := h + [c];
    RunEndsHere(h', recover, true);
    if OutageStands(h', fail, recover) {
      var e: nat :| Tripped(h', e, fail) && forall g: nat :: e < g ==> !Cleared(h', g, recover);
      assert h'[|h|].res.ok;
      assert Tripped(h, e, fail);
      assert !Cleared(h', |h'|, recover);
      forall g: nat | e < g ensures !Cleared(h, g, recover) {
        assert !Cleared(h', g, recover);
      }
    }
    if OutageStands(h, fail, recover) && TrailingRun(h', true) < recover {
      var e: nat :| Tripped(h, e, fail) && forall g: nat :: e < g ==> !Cleared(h, g, recover);
      assert Tripped(h', e, fail);
      forall g: nat | e < g ensures !Cleared(h', g, recover) {
        assert !Cleared(h, g, recover);
      }
    }
  }

  lemma OutageAfterFailure(h: seq<Check>, c: Check, fail: int, recover: int)
    requires fail >= 1 && recover >= 1 && !c.res.ok
    ensures OutageStands(h + [c], fail, recover)
      <==> OutageStands(h, fail, recover) || TrailingRun(h + [c], false) >= fail
  {
    var h' := h + [c];
    RunEndsHere(h', fail, false);
    if OutageStands(h', fail, recover) && TrailingRun(h', false) < fail {
      var e: nat :| Tripped(h', e, fail) && forall g: nat :: e < g ==> !Cleared(h', g, recover);
      assert Tripped(h, e, fail);
      forall g: nat | e < g ensures !Cleared(h, g, recover) {
        assert !Cleared(h', g, recover);
      }
    }
    if OutageStands(h, fail, recover) {
      var e: nat :| Tripped(h, e, fail) && forall g: nat :: e < g ==> !Cleared(h, g, recover);
      assert Tripped(h', e, fail);
      forall g: nat | e < g ensures !Cleared(h', g, recover) {
        assert !Cleared(h, g, recover);
        assert g == |h'| ==> !h'[g - 1].res.ok;
      }
    }
    if TrailingRun(h', false) >= fail {
      assert Tripped(h', |h'|, fail);
    }
  }

  ghost predicate Uncancelled(h: seq<Check>) {
    forall k :: 0 <= k < |h| ==> !h[k].res.canceled
  }

  /** The counters and the streak start describe the trailing run, whatever the thresholds. */
  lemma {:induction false} CountersFollowRuns(h: seq<Check>, eff: Effective)
    requires Uncancelled(h)
    ensures var s := Replay(h, eff);
      var n := TrailingRun(h, false);
      && s.failures == n
      && s.successes == TrailingRun(h, true)
      && s.firstFailure == (if n == 0 then None else Some(h[|h| - n].res.at))
  {
    if h != [] {
      CountersFollowRuns(h[..|h| - 1], eff);
    }
  }

  /**
    With fixed thresholds the machine is DOWN exactly when a run of failures reached the
    failure threshold and no later run of successes reached the recovery threshold, and it is
    UNKNOWN exactly while every check so far failed and there were too few of them.
  */
  lemma {:induction false} MachineRefinesRuns(h: seq<Check>, eff: Effective)
    requires Uncancelled(h) && eff.failureThreshold >= 1 && eff.recoveryThreshold >= 1
    ensures var s := Replay(h, eff);
      && (s.status == Down <==> OutageStands(h, eff.failureThreshold, eff.recoveryThreshold))
      && (s.status == Unknown <==> |h| < eff.failureThreshold && TrailingRun(h, false) == |h|)
      && (s.status != Down ==> s.failures < eff.failureThreshold)
  {
    CountersFollowRuns(h, eff);
    if h == [] {
      assert forall e: nat :: !Tripped(h, e, eff.failureThreshold);
    } else {
      var n := |h| - 1;
      var c := h[n];
      assert h == h[..n] + [c];
      CountersFollowRuns(h[..n], eff);
      MachineRefinesRuns(h[..n], eff);
      if c.res.ok {
        OutageAfterSuccess(h[..n], c, eff.failureThreshold, eff.recoveryThreshold);
      } else {
        OutageAfterFailure(h[..n], c, eff.failureThreshold, eff.recoveryThreshold);
      }
    }
  }

  function Checked(h: seq<Check>): seq<Check> {
    if h == [] then []
    else
      var n := |h| - 1;
      if h[n].res.canceled then Checked(h[..n]) else Checked(h[..n]) + [h[n]]
  }

  /** A cancelled probe counts for nothing. */
  lemma {:induction false} CancelledCountForNothing(h: seq<Check>, eff: Effective)
    ensures Replay(h, eff) == Replay(Checked(h), eff) && Uncancelled(Checked(h))
  {
    if h != [] {
      var n := |h| - 1;
      CancelledCountForNothing(h[..n], eff);
      var kept := Checked(h[..n]);
      assert (kept + [h[n]])[..|kept|] == kept;
    }
  }

  /**
    The probe that completes a failing run opens the incident, no other probe does, and the
    incident starts at the first failure of that run.
  */
  lemma IncidentStartsAtFirstFailure(h: seq<Check>, c: Check, eff: Effective)
    requires Uncancelled(h) && !c.res.canceled && eff.failureThreshold >= 1 && eff.recoveryThreshold >= 1
    ensures var t := Step(Replay(h, eff), eff, c.res, c.reminder, c.now).1;
      var h' := h + [c];
      var first := |h'| - eff.failureThreshold;
      && (t.openIncident <==> !OutageStands(h, eff.failureThreshold, eff.recoveryThreshold)
                              && OutageStands(h', eff.failureThreshold, eff.recoveryThreshold))
      && (t.openIncident ==>
            && Ran(h', first, |h'|, false) && (first == 0 || h'[first - 1].res.ok)
            && t.incidentStart == Some(h'[first].res.at))
  {
    var h' := h + [c];
    assert h'[..|h|] == h && h'[|h|] == c;
    MachineRefinesRuns(h, eff);
    MachineRefinesRuns(h', eff);
    CountersFollowRuns(h', eff);
    OpensWhenItGoesDown(Replay(h, eff), eff, c);
    TrailingRunIsMaximal(h', false);
  }

  lemma OpensWhenItGoesDown(s: Snap, eff: Effective, c: Check)
    ensures var (s', t) := Step(s, eff, c.res, c.reminder, c.now);
      && (t.openIncident <==> s.status != Down && s'.status == Down)
      && (t.openIncident ==> s'.failures == s.failures + 1 && t.incidentStart == s'.firstFailure)
  {
  }
}
