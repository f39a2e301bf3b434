/** The evaluator and the tables it writes, as the program runs them. */
module Evaluator {
  import opened Base
  import opened Heartbeats
  import opened Model
  import opened State
  import opened Incidents
  import opened Lifecycle

  /** Two devices never share a snapshot object. */
  predicate Apart(snaps: map<int, Snapshot>, d: int, e: int) {
    d in snaps && e in snaps && d != e ==> snaps[d] != snaps[e]
  }

  ghost predicate AllApart(snaps: map<int, Snapshot>) {
    forall d, e {:trigger Apart(snaps, d, e)} :: Apart(snaps, d, e)
  }

  lemma AddedApart(snaps: map<int, Snapshot>, device: int, s: Snapshot)
    requires AllApart(snaps) && forall d :: d in snaps ==> snaps[d] != s
    ensures AllApart(snaps[device := s])
  {
    var more := snaps[device := s];
    forall d, e
      ensures Apart(more, d, e)
    {
      assert Apart(snaps, d, e);
    }
  }

  /** The device and incident tables. */
  class Store {
    var rows: map<int, LiveRow>
    var incidents: seq<Incident>
    var next: int

    constructor (rows: map<int, LiveRow>, incidents: seq<Incident>, next: int)
      requires 0 < next && Numbered(incidents, next)
      ensures Valid() && this.rows == rows && this.incidents == incidents && this.next == next
    {
      this.rows, this.incidents, this.next := rows, incidents, next;
    }

    /** Ids were handed out in order, and the next one is unused. */
    ghost predicate Valid()
      reads this
    {
      0 < next && Numbered(incidents, next)
    }

    /** Appends one open row under an id no row has. */
    method OpenIncident(device: int, started: int, detected: int, cause: string, alertSent: bool) returns (id: int)
      requires Valid()
      modifies this`incidents, this`next
      ensures Valid() && id == old(next) && next == old(next) + 1
      ensures forall i :: i in old(incidents) ==> i.id < id
      ensures incidents == old(incidents) + [Incident(id, device, started, detected, None, None, cause, alertSent, false,
                                                      if alertSent then Some(detected) else None)]
    {
      var lastAlert := if alertSent then Some(detected) else None;
      id := next;
      next := next + 1;
      ghost var was := incidents;
      incidents := incidents + [Incident(id, device, started, detected, None, None, cause, alertSent, false, lastAlert)];
      forall j, k | 0 <= j < k < |incidents| ensures Earlier(incidents[j], incidents[k]) {
        assert k < |was| ==> Earlier(was[j], was[k]);
      }
    }

    /** Ends an incident that is still open; one that is over keeps its end. */
    method CloseIncident(id: int, at: int, recoverySent: bool)
      requires Valid()
      modifies this`incidents
      ensures Valid() && incidents == Resolve(old(incidents), id, at, recoverySent)
      ensures OnlyClosed(old(incidents), incidents, id, at, recoverySent)
    {
      incidents := Resolve(incidents, id, at, recoverySent);
      SameIdsNumbered(old(incidents), incidents, next);
    }

    method MarkIncidentAlerted(id: int, at: int)
      requires Valid()
      modifies this`incidents
      ensures Valid() && incidents == MarkAlerted(old(incidents), id, at)
      ensures OnlyMarked(old(incidents), incidents, id, at)
    {
      incidents := MarkAlerted(incidents, id, at);
      SameIdsNumbered(old(incidents), incidents, next);
    }

    method SaveState(device: int, s: Snapshot)
      modifies this`rows
      ensures rows == if device in old(rows) then old(rows)[device := LiveOf(s.View())] else old(rows)
    {
      if device in rows {
        rows := rows[device := LiveRow(s.status, s.failures, s.successes, s.firstFailure)];
      }
    }

    /** Every device's live state, with its open incident carried forward. */
    method LoadSnapshots() returns (snaps: map<int, Snapshot>)
      ensures snaps.Keys == rows.Keys
      ensures forall d :: d in snaps ==> fresh(snaps[d]) && snaps[d].View() == Rebuilt(rows[d], OpenRows(incidents, d))
      ensures AllApart(snaps)
    {
      snaps := map[];
      var left := rows.Items;
      while left != {}
        invariant left <= rows.Items
        invariant forall d :: d in snaps <==> d in rows && (d, rows[d]) !in left
        invariant forall d :: d in snaps ==> fresh(snaps[d]) && snaps[d].View() == Rebuilt(rows[d], OpenRows(incidents, d))
        invariant AllApart(snaps)
        decreases left
      {
        var row :| row in left;
        var s := new Snapshot(Rebuilt(row.1, OpenRows(incidents, row.0)));
        AddedApart(snaps, row.0, s);
        snaps := snaps[row.0 := s];
        left := left - {row};
      }
      forall d ensures d in snaps <==> d in rows {}
    }
  }

  /** The heartbeat of one probe, as it is handed to the writer. */
  function BeatOf(res: Result): Beat { Beat(res.device, res.ok, res.latency, res.at) }

  /** What a dashboard is told. */
  datatype Notice =
    | Seen(beat: Beat)
    | Changed(device: int, from: Status, next: Status, incident: int)
    | Opened(incident: int, device: int, started: Option<int>)
    | Resolved(incident: int, device: int, at: int, downtime: int)

  /** The incident a changed status opened or closed is announced right after it. */
  function StatusNotices(res: Result, t: Transition): seq<Notice> {
    if !t.changed then []
    else
      [Changed(res.device, t.prior, t.next, t.incident)] +
      (if t.openIncident then [Opened(t.incident, res.device, t.incidentStart)]
       else if t.closeIncident then [Resolved(t.incident, res.device, res.at, t.downtime)]
       else [])
  }

  /** An ignored probe, or one of a device that left the effective set, is neither recorded nor told. */
  function Notices(res: Result, o: Outcome): seq<Notice> {
    if !o.acted || o.transition.ignored then [] else [Seen(BeatOf(res))] + StatusNotices(res, o.transition)
  }

  function BeatsFrom(res: Result, o: Outcome): seq<Beat> {
    if !o.acted || o.transition.ignored then [] else [BeatOf(res)]
  }

  /** The engine's in-memory half: one snapshot object per device and the effective settings. */
  class App {
    const store: Store
    var snaps: map<int, Snapshot>
    var effs: map<int, Effective>
    var lastCheck: map<int, int>
    var recorded: seq<Beat>       // handed to the heartbeat writer
    var published: seq<Notice>    // handed to the event hub

    ghost predicate Valid()
      reads this, store
    {
      AllApart(snaps) && store.Valid()
    }

    function World(): World
      reads this, store, snaps.Values
    {
      Lifecycle.World(map d | d in snaps :: snaps[d].View(), store.rows, store.incidents, store.next)
    }

    function EffectiveFor(device: int): Option<Effective>
      reads this
    {
      if device in effs then Some(effs[device]) else None
    }

    /** Starts from the tables, as after a restart. */
    constructor (store: Store)
      requires store.Valid()
      ensures this.store == store && Valid() && effs == map[] && lastCheck == map[] && recorded == [] && published == []
      ensures World() == Lifecycle.World(Load(World()), store.rows, store.incidents, store.next)
    {
      this.store := store;
      var loaded := store.LoadSnapshots();
      snaps, effs, lastCheck, recorded, published := loaded, map[], map[], [], [];
      new;
      assert World().snaps == Load(World());
    }

    /** Adopts a new effective set; snapshots of devices that left it are kept. */
    method Refresh(list: seq<Effective>)
      requires Valid()
      modifies this`snaps, this`effs, this`lastCheck
      ensures Valid()
      ensures forall e :: e in list ==> e.device in effs && effs[e.device] in list && effs[e.device].device == e.device
      ensures forall d :: d in effs ==> effs[d] in list && effs[d].device == d
      ensures forall d :: SnapOf(World(), d) == old(SnapOf(World(), d))
      ensures lastCheck == map d | d in old(lastCheck) && d in effs :: old(lastCheck)[d]
    {
      hide Numbered;
      effs := map[];
      for n := 0 to |list|
        invariant Valid() && lastCheck == old(lastCheck)
        invariant forall d :: d in effs ==> effs[d] in list[..n] && effs[d].device == d
        invariant forall k :: 0 <= k < n ==> list[k].device in effs
        invariant forall d :: d in old(snaps) ==> d in snaps && snaps[d] == old(snaps[d])
        invariant forall d :: d in snaps && d !in old(snaps) ==> fresh(snaps[d]) && snaps[d].View() == FRESH
      {
        var e := list[n];
        effs := effs[e.device := e];
        if e.device !in snaps {
          var s := new Snapshot(FRESH);
          AddedApart(snaps, e.device, s);
          snaps := snaps[e.device := s];
        }
      }
      assert list[..|list|] == list;
      lastCheck := map d | d in lastCheck && d in effs :: lastCheck[d];
    }

    /** The device's snapshot, created on first sight. */
    method Lookup(device: int) returns (snap: Snapshot)
      requires Valid()
      modifies this`snaps
      ensures Valid() && device in snaps && snaps[device] == snap
      ensures snap.View() == old(SnapOf(World(), device))
      ensures snaps == old(snaps)[device := snap]
      ensures if device in old(snaps) then snap == old(snaps)[device] else fresh(snap)
    {
      if device !in snaps {
        var created := new Snapshot(FRESH);
        AddedApart(snaps, device, created);
        snaps := snaps[device := created];
      }
      snap := snaps[device];
    }

    /** Applies the state machine, writes what it decided to the tables, tells who listens, then decides the mail. */
    method Act(snap: Snapshot, eff: Effective, res: Result, reminder: int, now: int) returns (o: Outcome)
      requires res.device in store.rows && store.Valid()
      modifies snap, store, this`recorded, this`published
      ensures store.Valid()
      ensures recorded == old(recorded) + BeatsFrom(res, o) && published == old(published) + Notices(res, o)
      ensures var (s0, t0) := Step(old(snap.View()), eff, res, reminder, now);
        if t0.ignored then
          snap.View() == s0 && o == Outcome(true, res.device, res.ok, now, t0, NoMail) && unchanged(store)
        else
          var (s, t) := Numbering(s0, t0, old(store.next));
          var written := Recorded(old(store.incidents), old(store.next), res, t);
          && snap.View() == s && o == Outcome(true, res.device, res.ok, now, t, MailFor(t, eff))
          && store.rows == old(store.rows)[res.device := LiveOf(s)]
          && store.incidents == (if o.mail.DownMail? then MarkAlerted(written, t.incident, now) else written)
          && store.next == if t.openIncident then old(store.next) + 1 else old(store.next)
    {
      hide Recorded, MailFor, StatusNotices;
      var t := snap.Apply(eff, res, reminder, now);
      if t.ignored {
        return Outcome(true, res.device, res.ok, now, t, NoMail);
      }
      recorded := recorded + [BeatOf(res)];
      published := published + [Seen(BeatOf(res))];
      t := WriteIncident(snap, res, t);
      Tell(res, t);
      store.SaveState(res.device, snap);
      var mail := Dispatch(eff, t, now);
      o := Outcome(true, res.device, res.ok, now, t, mail);
    }

    /** Opens or closes the incident the transition calls for. */
    method WriteIncident(snap: Snapshot, res: Result, t0: Transition) returns (t: Transition)
      requires store.Valid() && !(t0.openIncident && t0.closeIncident)
      modifies snap`incident, store`incidents, store`next
      ensures store.Valid() && store.next == if t0.openIncident then old(store.next) + 1 else old(store.next)
      ensures (snap.View(), t) == Numbering(old(snap.View()), t0, old(store.next))
      ensures store.incidents == Recorded(old(store.incidents), old(store.next), res, t)
    {
      t := t0;
      if t.openIncident {
        var id := store.OpenIncident(res.device, t.incidentStart.GetOr(0), res.at, t.cause, t.sendDown);
        snap.incident := id;
        t := t.(incident := id);
      }
      if t.closeIncident && t.incident != 0 {
        store.CloseIncident(t.incident, res.at, t.sendRecovery);
      }
    }

    /** Tells the dashboards of a changed status and of the incident it opened or closed. */
    method Tell(res: Result, t: Transition)
      modifies this`published
      ensures published == old(published) + StatusNotices(res, t)
    {
      if !t.changed {
        return;
      }
      published := published + [Changed(res.device, t.prior, t.next, t.incident)];
      if t.openIncident {
        published := published + [Opened(t.incident, res.device, t.incidentStart)];
      } else if t.closeIncident {
        published := published + [Resolved(t.incident, res.device, res.at, t.downtime)];
      }
    }

    /** If one device's snapshot was written to, the others show what they showed. */
    twostate lemma OnlyOneProbed(device: int)
      requires Valid() && device in snaps && snaps == old(snaps)[device := snaps[device]]
      requires device in old(snaps) ==> snaps[device] == old(snaps[device])
      requires forall d :: d in old(snaps) && old(snaps[d]) != snaps[device] ==> unchanged(old(snaps[d]))
      ensures World().snaps == old(World()).snaps[device := snaps[device].View()]
    {
      forall d | d in snaps && d != device
        ensures d in old(snaps) && snaps[d].View() == old(snaps[d].View())
      {
        assert Apart(snaps, d, device);
      }
    }

    /** One probe result, for a device that may have left the effective set meanwhile. */
    method Evaluate(res: Result, reminder: int, now: int) returns (o: Outcome)
      requires Valid()
      requires res.device in effs ==> res.device in store.rows
      modifies this`snaps, this`lastCheck, this`recorded, this`published, store, snaps.Values
      ensures Valid()
      ensures recorded == old(recorded) + BeatsFrom(res, o) && published == old(published) + Notices(res, o)
      ensures (World(), o) == Lifecycle.Evaluate(old(World()), EffectiveFor(res.device), res, reminder, now)
      ensures lastCheck == if res.device in effs then old(lastCheck)[res.device := res.at] else old(lastCheck)
    {
      hide Step, Numbering, Recorded, MailFor, LiveOf;
      if res.device !in effs {
        return Outcome(false, res.device, res.ok, now, Quiet(Unknown), NoMail);
      }
      var snap := Lookup(res.device);
      lastCheck := lastCheck[res.device := res.at];
      o := Act(snap, effs[res.device], res, reminder, now);
      OnlyOneProbed(res.device);
    }

    /** Decides the mail and marks the incident as announced. */
    method Dispatch(eff: Effective, t: Transition, now: int) returns (mail: Mail)
      requires store.Valid()
      modifies store`incidents
      ensures store.Valid()
      ensures mail == MailFor(t, eff)
      ensures store.incidents
           == if mail.DownMail? then MarkAlerted(old(store.incidents), t.incident, now) else old(store.incidents)
    {
      if (!t.sendDown && !t.sendRecovery && !t.sendReminder) || eff.recipients == [] {
        return NoMail;
      }
      if t.sendDown {
        store.MarkIncidentAlerted(t.incident, now);
        return DownMail(t.incident);
      }
      if t.sendRecovery {
        return RecoveryMail(t.incident);
      }
      return ReminderMail(t.incident);
    }
  }
}
