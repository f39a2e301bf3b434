/** The incident table: rows in the order of their ids, and the statements that change it. */
module Incidents {
  import opened Base

  datatype Incident = Incident(
    id: int,
    device: int,
    started: int,
    detected: int,
    resolved: Option<int>,
    duration: Option<int>,
    cause: string,
    alertSent: bool,
    recoverySent: bool,
    lastAlert: Option<int>)
  {
    /** Whether the outage was running at second `t`. */
    predicate Covers(dev: int, t: int) {
      device == dev && started <= t && (resolved.None? || t < resolved.value)
    }

    /** Still open, or resolved at or after `before`. */
    predicate Lasts(before: int) { resolved.None? || resolved.value >= before }

    /** Resolved before it started: only possible when the clock was set back. */
    predicate Reversed() {
      resolved.Some? && resolved.value < started
    }
  }

  /** Two rows of one device: the earlier one is over before the later one begins. */
  predicate Precedes(a: Incident, b: Incident) {
    a.device == b.device ==> a.resolved.Some? && a.resolved.value <= b.started
  }

  ghost predicate Chronological(rows: seq<Incident>) {
    && (forall k :: 0 <= k < |rows| ==> !rows[k].Reversed())
    && (forall j, k {:trigger Precedes(rows[j], rows[k])} :: 0 <= j < k < |rows| ==> Precedes(rows[j], rows[k]))
  }

  /** Ids were handed out in order and none at or above `next` is in use. */
  ghost predicate Numbered(rows: seq<Incident>, next: int) {
    && (forall k :: 0 <= k < |rows| ==> 0 < rows[k].id < next)
    && (forall j, k {:trigger Earlier(rows[j], rows[k])} :: 0 <= j < k < |rows| ==> Earlier(rows[j], rows[k]))
  }

  predicate Earlier(a: Incident, b: Incident) { a.id < b.id }

  // ---- Statements ------------------------------------------------------------

  function ResolvedRow(i: Incident, id: int, at: int, sent: bool): Incident {
    if i.id == id && i.resolved.None?
    then i.(resolved := Some(at), duration := Some(at - i.started), recoverySent := sent)
    else i
  }

  /** Resolves the open incident with this id. */
  function Resolve(rows: seq<Incident>, id: int, at: int, sent: bool): (r: seq<Incident>)
    ensures |r| == |rows| && forall k :: 0 <= k < |r| ==> r[k] == ResolvedRow(rows[k], id, at, sent)
  {
    if rows == [] then [] else [ResolvedRow(rows[0], id, at, sent)] + Resolve(rows[1..], id, at, sent)
  }

  function MarkedRow(i: Incident, id: int, at: int): Incident {
    if i.id == id then i.(alertSent := true, lastAlert := Some(at)) else i
  }

  /** Records that a DOWN mail was queued for an incident. */
  function MarkAlerted(rows: seq<Incident>, id: int, at: int): (r: seq<Incident>)
    ensures |r| == |rows| && forall k :: 0 <= k < |r| ==> r[k] == MarkedRow(rows[k], id, at)
  {
    if rows == [] then [] else [MarkedRow(rows[0], id, at)] + MarkAlerted(rows[1..], id, at)
  }

  /** Open incidents and those resolved at or after `before`, in order. */
  function Retained(rows: seq<Incident>, before: int): (kept: seq<Incident>)
    ensures |kept| <= |rows| && forall i :: i in kept <==> i in rows && i.Lasts(before)
  {
    if rows == [] then []
    else if rows[0].Lasts(before) then [rows[0]] + Retained(rows[1..], before)
    else Retained(rows[1..], before)
  }

  /** An open incident with this id is over, with its length on record; every other row is what it was. */
  ghost predicate OnlyClosed(was: seq<Incident>, now: seq<Incident>, id: int, at: int, sent: bool) {
    && |now| == |was|
    && (forall k :: 0 <= k < |was| && (was[k].id != id || was[k].resolved.Some?) ==> now[k] == was[k])
    && (forall k :: 0 <= k < |was| && was[k].id == id && was[k].resolved.None? ==>
          now[k] == was[k].(resolved := Some(at), duration := Some(at - was[k].started), recoverySent := sent))
    && (forall k :: 0 <= k < |now| && now[k].id == id ==> now[k].resolved.Some?)
  }

  /** The incident with this id is marked as announced at `at`, and every other row is what it was. */
  ghost predicate OnlyMarked(was: seq<Incident>, now: seq<Incident>, id: int, at: int) {
    && |now| == |was|
    && (forall k :: 0 <= k < |was| && was[k].id != id ==> now[k] == was[k])
    && (forall k :: 0 <= k < |was| && was[k].id == id ==> now[k] == was[k].(alertSent := true, lastAlert := Some(at)))
  }

  /** Closing an incident again, at whatever time, changes nothing: its end stands. */
  lemma ClosedStaysClosed(rows: seq<Incident>, id: int, at: int, sent: bool, later: int, again: bool)
    ensures Resolve(Resolve(rows, id, at, sent), id, later, again) == Resolve(rows, id, at, sent)
  {
  }

  /** Rewriting rows without touching their ids leaves them numbered. */
  lemma SameIdsNumbered(was: seq<Incident>, now: seq<Incident>, next: int)
    requires Numbered(was, next) && |now| == |was| && forall k :: 0 <= k < |was| ==> now[k].id == was[k].id
    ensures Numbered(now, next)
  {
    forall j, k | 0 <= j < k < |now| ensures Earlier(now[j], now[k]) {
      assert Earlier(was[j], was[k]);
    }
  }

  // ---- A device's open incidents ---------------------------------------------

  function OpenRows(rows: seq<Incident>, device: int): (r: seq<Incident>)
    ensures forall i :: i in r ==> i in rows && i.device == device && i.resolved.None?
    ensures forall i :: i in rows && i.device == device && i.resolved.None? ==> i in r
  {
    if rows == [] then []
    else if rows[0].device == device && rows[0].resolved.None? then [rows[0]] + OpenRows(rows[1..], device)
    else OpenRows(rows[1..], device)
  }

  lemma {:induction false} OpenRowsAppend(rows: seq<Incident>, i: Incident, device: int)
    ensures OpenRows(rows + [i], device)
         == if i.device == device && i.resolved.None? then OpenRows(rows, device) + [i] else OpenRows(rows, device)
  {
    if rows == [] {
      assert rows + [i] == [i] && [i][1..] == [];
    } else {
      assert (rows + [i])[1..] == rows[1..] + [i];
      OpenRowsAppend(rows[1..], i, device);
      if rows[0].device == device && rows[0].resolved.None? && i.device == device && i.resolved.None? {
        assert [rows[0]] + (OpenRows(rows[1..], device) + [i]) == [rows[0]] + OpenRows(rows[1..], device) + [i];
      }
    }
  }

  /** Resolving an incident removes it, and only it, from the open ones. */
  lemma {:induction false} OpenRowsResolve(rows: seq<Incident>, id: int, at: int, sent: bool, device: int)
    ensures var open := OpenRows(rows, device);
      && (open == [] ==> OpenRows(Resolve(rows, id, at, sent), device) == [])
      && (|open| == 1 ==> OpenRows(Resolve(rows, id, at, sent), device) == if open[0].id == id then [] else open)
  {
    if rows != [] {
      OpenRowsResolve(rows[1..], id, at, sent, device);
      assert Resolve(rows, id, at, sent)[1..] == Resolve(rows[1..], id, at, sent);
    }
  }

  lemma {:induction false} OpenRowsMark(rows: seq<Incident>, id: int, at: int, device: int)
    ensures OpenRows(MarkAlerted(rows, id, at), device) == MarkAlerted(OpenRows(rows, device), id, at)
  {
    if rows != [] {
      OpenRowsMark(rows[1..], id, at, device);
      assert MarkAlerted(rows, id, at)[1..] == MarkAlerted(rows[1..], id, at);
      var tail := OpenRows(rows[1..], device);
      assert ([rows[0]] + tail)[1..] == tail;
    }
  }

  /** Retention never touches an open incident. */
  lemma {:induction false} OpenRowsRetained(rows: seq<Incident>, before: int, device: int)
    ensures OpenRows(Retained(rows, before), device) == OpenRows(rows, device)
  {
    if rows != [] {
      OpenRowsRetained(rows[1..], before, device);
      var tail := Retained(rows[1..], before);
      assert ([rows[0]] + tail)[1..] == tail;
    }
  }

  lemma {:induction false} RetainedKeepsOrder(rows: seq<Incident>, before: int, next: int)
    ensures Numbered(rows, next) ==> Numbered(Retained(rows, before), next)
    ensures Chronological(rows) ==> Chronological(Retained(rows, before))
  {
    if rows != [] {
      RetainedKeepsOrder(rows[1..], before, next);
      forall k | 0 <= k < |rows[1..]| ensures rows[1..][k] == rows[k + 1] {}
      var tail := Retained(rows[1..], before);
      forall k | 0 <= k < |tail|
        ensures exists j :: 0 < j < |rows| && rows[j] == tail[k]
      {
        assert tail[k] in rows[1..];
        var j :| 0 <= j < |rows[1..]| && rows[1..][j] == tail[k];
        assert rows[j + 1] == tail[k];
      }
    }
  }
}
