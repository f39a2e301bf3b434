/** The durable mail queue: rows are retried on a fixed schedule until they are sent. */
module Outbox {
  import opened Base

  /** `due` is the time of the next attempt; times are seconds. */
  datatype Row = Row(attempts: nat, due: int, sent: Option<int>, created: int)

  type Rows = map<int, Row>

  const BACKOFF: seq<int> := [60, 300, 900, 3600, 14400, 14400, 14400, 14400]
  const MAX_ATTEMPTS := |BACKOFF|
  const DEFAULT_LIMIT := 20

  predicate IsDue(rows: Rows, id: int, now: int) {
    id in rows && rows[id].sent.None? && rows[id].due <= now
  }

  function Sent(rows: Rows, id: int, at: int): Rows
    requires id in rows
  {
    rows[id := rows[id].(sent := Some(at), attempts := rows[id].attempts + 1)]
  }

  /** A failed attempt: rescheduled while the schedule lasts, else only counted. */
  function Failed(rows: Rows, id: int, attempts: nat, now: int): Rows
    requires id in rows
  {
    var row := rows[id].(attempts := rows[id].attempts + 1);
    rows[id := if attempts >= MAX_ATTEMPTS then row else row.(due := now + BACKOFF[attempts])]
  }

  predicate DueNoLater(rows: Rows, a: int, b: int) {
    a in rows && b in rows ==> rows[a].due <= rows[b].due
  }

  ghost predicate Ascending(batch: seq<int>, rows: Rows) {
    forall j, k {:trigger DueNoLater(rows, batch[j], batch[k])} ::
      0 <= j < k < |batch| ==> batch[j] != batch[k] && DueNoLater(rows, batch[j], batch[k])
  }

  /** A possible answer to "the unsent rows due by now, soonest first, at most `limit`". */
  ghost predicate IsDueBatch(batch: seq<int>, rows: Rows, now: int, limit: int) {
    var most := if limit <= 0 then DEFAULT_LIMIT else limit;
    && |batch| <= most
    && (forall id :: id in batch ==> IsDue(rows, id, now))
    && Ascending(batch, rows)
    && (forall id :: IsDue(rows, id, now) && id !in batch ==>
          |batch| == most && forall k :: 0 <= k < |batch| ==> DueNoLater(rows, batch[k], id))
  }

  class Queue {
    var rows: Rows
    var next: int

    constructor ()
      ensures Valid() && rows == map[] && next == 1
    {
      rows, next := map[], 1;
    }

    /** Ids are handed out in order and never again. */
    ghost predicate Valid()
      reads this
    {
      forall id :: id in rows ==> id < next
    }

    /** Adds one row under an id no row has, due at once. */
    method Enqueue(now: int) returns (id: int)
      requires Valid()
      modifies this
      ensures Valid() && id == old(next) && next == id + 1
      ensures Admissible(old(rows), Add(id, now)) && rows == After(old(rows), Add(id, now))
      ensures rows == old(rows)[id := Row(0, now, None, now)] && IsDue(rows, id, now)
    {
      id := next;
      next := next + 1;
      rows := rows[id := Row(0, now, None, now)];
    }

    method DueAlerts(now: int, limit: int) returns (batch: seq<int>)
      ensures IsDueBatch(batch, rows, now, limit)
    {
      var most := if limit <= 0 then DEFAULT_LIMIT else limit;
      var left := map id | id in rows && rows[id].sent.None? && rows[id].due <= now :: rows[id];
      ghost var due := left;
      batch := [];
      while left != map[] && |batch| < most
        invariant |batch| <= most && Ascending(batch, rows)
        invariant forall id :: id in left ==> IsDue(rows, id, now) && left[id] == rows[id] && id !in batch
        invariant forall id :: IsDue(rows, id, now) <==> id in left || id in batch
        invariant forall k, id {:trigger DueNoLater(rows, batch[k], id)} ::
          0 <= k < |batch| && id in left ==> DueNoLater(rows, batch[k], id)
        decreases left.Keys
      {
        var id := Soonest(left);
        forall j, k | 0 <= j < k < |batch + [id]|
          ensures (batch + [id])[j] != (batch + [id])[k] && DueNoLater(rows, (batch + [id])[j], (batch + [id])[k])
        {
          assert k < |batch| ==> DueNoLater(rows, batch[j], batch[k]);
          assert k == |batch| ==> DueNoLater(rows, batch[j], id);
        }
        left := left - {id};
        batch := batch + [id];
      }
      forall id | IsDue(rows, id, now) && id !in batch
        ensures |batch| == most && forall k :: 0 <= k < |batch| ==> DueNoLater(rows, batch[k], id)
      {
        assert id in left;
      }
    }

    method MarkSent(id: int, at: int)
      requires id in rows
      modifies this`rows
      ensures rows == Sent(old(rows), id, at)
      ensures rows[id] == Row(old(rows)[id].attempts + 1, old(rows)[id].due, Some(at), old(rows)[id].created)
      ensures rows - {id} == old(rows) - {id}
    {
      rows := rows[id := rows[id].(sent := Some(at), attempts := rows[id].attempts + 1)];
    }

    method MarkFailed(id: int, attempts: nat, now: int) returns (exhausted: bool)
      requires id in rows
      modifies this`rows
      ensures rows == Failed(old(rows), id, attempts, now)
      ensures exhausted <==> attempts >= 8
      ensures rows[id].attempts == old(rows)[id].attempts + 1 && rows[id].sent == old(rows)[id].sent
      ensures rows[id].due == if exhausted then old(rows)[id].due else now + BACKOFF[attempts]
      ensures rows - {id} == old(rows) - {id}
    {
      var row := rows[id].(attempts := rows[id].attempts + 1);
      if attempts >= |BACKOFF| {
        rows := rows[id := row];
        return true;
      }
      rows := rows[id := row.(due := now + BACKOFF[attempts])];
      return false;
    }

    /**
      One drain: the rows due when it read the queue are attempted once each, in order, the first
      `stop` of them if it is shut down then, and none while the mail settings are not usable.
    */
    method Drain(now: int, configured: bool, stop: nat) returns (sent: nat, ghost batch: seq<int>, ghost log: seq<Event>)
      requires Valid()
      modifies this`rows
      ensures Valid()
      ensures IsDueBatch(batch, old(rows), now, 20)
      ensures |log| == if !configured then 0 else Min(stop, |batch|)
      ensures forall k :: 0 <= k < |log| ==> log[k].Attempt? && log[k].read == now && log[k].id == batch[k]
      ensures forall j, k :: 0 <= j < k < |log| ==> log[j].id != log[k].id
      ensures AdmissibleRun(old(rows), log) && rows == Run(old(rows), log)
      ensures sent == |DeliveredIn(log)|
    {
      hide Run, AdmissibleRun, DeliveredIn;
      var due := DueAlerts(now, 20);
      batch := due;
      ghost var start := rows;
      log, sent := [], 0;
      NothingTried(start);
      if !configured {
        return;
      }
      var clock := now;
      forall k | 0 <= k < |batch| ensures IsDue(start, batch[k], now) {
        assert batch[k] in batch;
      }
      for n := 0 to |due|
        invariant |log| == n <= stop && now <= clock && Valid() && sent == |DeliveredIn(log)|
        invariant AdmissibleRun(start, log) && rows == Run(start, log)
        invariant forall k :: 0 <= k < n ==> log[k].Attempt? && log[k].read == now && log[k].id == batch[k]
        invariant forall k :: n <= k < |batch| ==> batch[k] in rows && rows[batch[k]] == start[batch[k]]
      {
        if n == stop {
          break;
        }
        var id := due[n];
        var attempts := rows[id].attempts;
        var ok: bool := *;
        var at: int :| clock <= at;
        clock := at;
        forall k | n < k < |batch| ensures batch[k] != id {
          assert DueNoLater(start, batch[n], batch[k]);
        }
        ghost var e := Attempt(id, now, at, ok);
        OneMoreEvent(start, log, e);
        if ok {
          MarkSent(id, at);
          sent := sent + 1;
        } else {
          var exhausted := MarkFailed(id, attempts, at);
        }
        log := log + [e];
      }
      NoneTwice(batch, start, log);
    }
  }

  /** The attempts that got their mail out. */
  function DeliveredIn(log: seq<Event>): set<int> {
    set k | 0 <= k < |log| && Delivered(log[k])
  }

  predicate Delivered(e: Event) { e.Attempt? && e.ok }

  lemma NothingTried(rows: Rows)
    ensures AdmissibleRun(rows, []) && Run(rows, []) == rows && DeliveredIn([]) == {}
  {
  }

  lemma OneMoreEvent(rows: Rows, log: seq<Event>, e: Event)
    requires AdmissibleRun(rows, log) && Admissible(Run(rows, log), e)
    ensures AdmissibleRun(rows, log + [e]) && Run(rows, log + [e]) == After(Run(rows, log), e)
    ensures |DeliveredIn(log + [e])| == |DeliveredIn(log)| + if Delivered(e) then 1 else 0
  {
    assert (log + [e])[..|log|] == log;
    var was, now := DeliveredIn(log), DeliveredIn(log + [e]);
    var more := if Delivered(e) then was + {|log|} else was;
    forall k ensures k in now <==> k in more {}
    assert now == more;
  }

  lemma NoneTwice(batch: seq<int>, rows: Rows, log: seq<Event>)
    requires Ascending(batch, rows) && |log| <= |batch|
    requires forall k :: 0 <= k < |log| ==> log[k].Attempt? && log[k].id == batch[k]
    ensures forall j, k :: 0 <= j < k < |log| ==> log[j].id != log[k].id
  {
    forall j, k | 0 <= j < k < |log| ensures log[j].id != log[k].id {
      assert DueNoLater(rows, batch[j], batch[k]);
    }
  }

  method Soonest(left: Rows) returns (id: int)
    requires left != map[]
    ensures id in left && forall other :: other in left ==> DueNoLater(left, id, other)
  {
    var items := left.Items;
    var first :| first in items;
    id := first.0;
    items := items - {first};
    while items != {}
      invariant items <= left.Items && id in left
      invariant forall other :: other in left && (other, left[other]) !in items ==> DueNoLater(left, id, other)
      decreases items
    {
      var item :| item in items;
      if item.1.due < left[id].due {
        id := item.0;
      }
      items := items - {item};
    }
  }

  // ---- Runs ------------------------------------------------------------------

  /** `read` is when the drain read the queue, `at` when this attempt ended. */
  datatype Event = Add(id: int, now: int) | Attempt(id: int, read: int, at: int, ok: bool)

  function After(rows: Rows, e: Event): Rows {
    match e
    case Add(id, now) => rows[id := Row(0, now, None, now)]
    case Attempt(id, _, at, ok) =>
      if id !in rows then rows
      else if ok then Sent(rows, id, at)
      else Failed(rows, id, rows[id].attempts, at)
  }

  function Run(rows: Rows, es: seq<Event>): Rows {
    if es == [] then rows else After(Run(rows, es[..|es| - 1]), es[|es| - 1])
  }

  /** Ids are never reused and only due rows are attempted. */
  predicate Admissible(rows: Rows, e: Event) {
    match e
    case Add(id, _) => id !in rows
    case Attempt(id, read, at, _) => IsDue(rows, id, read) && read <= at
  }

  ghost predicate AdmissibleRun(rows: Rows, es: seq<Event>) {
    es == [] ||
    (AdmissibleRun(rows, es[..|es| - 1]) && Admissible(Run(rows, es[..|es| - 1]), es[|es| - 1]))
  }

  /** When the row's first attempt failed, if it has. */
  function FirstFailure(es: seq<Event>, id: int): Option<int> {
    if es == [] then None
    else
      var e := es[|es| - 1];
      var earlier := FirstFailure(es[..|es| - 1], id);
      if earlier.None? && e.Attempt? && e.id == id && !e.ok then Some(e.at) else earlier
  }

  /** The first `k` delays of the schedule, added up. */
  function Delay(k: nat): int
    requires k <= MAX_ATTEMPTS
  {
    if k == 0 then 0 else Delay(k - 1) + BACKOFF[k - 1]
  }

  lemma WholeSchedule()
    ensures MAX_ATTEMPTS == 8 && Delay(8) == 1041 * 60
    ensures Delay(1) == 60 && Delay(2) == 360 && Delay(3) == 1260 && Delay(4) == 4860
    ensures Delay(5) == 19260 && Delay(6) == 33660 && Delay(7) == 48060
  {
    assert Delay(1) == 60 && Delay(2) == 360 && Delay(3) == 1260 && Delay(4) == 4860;
    assert Delay(5) == 19260 && Delay(6) == 33660 && Delay(7) == 48060;
  }

  /** After `k` failures an unsent row is not due before the first failure plus the first `k` delays. */
  predicate Paced(rows: Rows, es: seq<Event>, id: int) {
    id in rows && rows[id].sent.None? ==>
      var k := rows[id].attempts;
      if k == 0 then FirstFailure(es, id).None?
      else FirstFailure(es, id).Some?
           && rows[id].due >= FirstFailure(es, id).value + Delay(if k <= MAX_ATTEMPTS then k else MAX_ATTEMPTS)
  }

  lemma {:induction false} RunKeepsPaced(es: seq<Event>, id: int)
    requires AdmissibleRun(map[], es)
    ensures Paced(Run(map[], es), es, id)
    ensures id !in Run(map[], es) ==> FirstFailure(es, id).None?
  {
    if es != [] {
      var n := |es| - 1;
      RunKeepsPaced(es[..n], id);
    }
  }

  /**
    A row that has already failed eight times is attempted again no sooner than the whole
    schedule, 1041 minutes, after its first failure; after `k` failures no sooner than the
    first `k` delays.
  */
  lemma AttemptsArePaced(es: seq<Event>, e: Event)
    requires AdmissibleRun(map[], es) && e.Attempt? && Admissible(Run(map[], es), e)
    requires Run(map[], es)[e.id].attempts > 0
    ensures var k := Run(map[], es)[e.id].attempts;
      var first := FirstFailure(es, e.id);
      && first.Some?
      && (k <= MAX_ATTEMPTS ==> e.at >= first.value + Delay(k))
      && (k >= MAX_ATTEMPTS ==> e.at >= first.value + 1041 * 60)
  {
    RunKeepsPaced(es, e.id);
    WholeSchedule();
  }

  /** After the failure that makes the count `k + 1`, the row is not handed out before that failure plus delay `k`. */
  lemma NextAttemptWaits(rows: Rows, id: int, at: int, now: int)
    requires id in rows && rows[id].sent.None?
    ensures var k := rows[id].attempts;
      var rows' := After(rows, Attempt(id, at, at, false));
      k < MAX_ATTEMPTS ==> (IsDue(rows', id, now) <==> now >= at + BACKOFF[k])
  {
  }

  /** Failing leaves a row due at that very moment exactly when its schedule is used up: it is then tried on every drain. */
  lemma ExhaustedStaysDue(rows: Rows, id: int, read: int, at: int)
    requires Admissible(rows, Attempt(id, read, at, false))
    ensures IsDue(After(rows, Attempt(id, read, at, false)), id, at) <==> rows[id].attempts >= MAX_ATTEMPTS
  {
    assert forall k :: 0 <= k < |BACKOFF| ==> BACKOFF[k] > 0;
  }

  lemma {:induction false} ElementsFit<T>(s: set<T>, batch: seq<T>)
    requires forall x :: x in s ==> x in batch
    ensures |s| <= |batch|
  {
    if batch != [] {
      var n := |batch| - 1;
      ElementsFit(s - {batch[n]}, batch[..n]);
      assert |s| <= |s - {batch[n]}| + 1 by {
        if batch[n] in s {
          assert s == (s - {batch[n]}) + {batch[n]};
        } else {
          assert s == s - {batch[n]};
        }
      }
    } else {
      assert s == {};
    }
  }

  // ---- Who is tried ----------------------------------------------------------

  /** The other due rows that may be handed out before this one. */
  function Rivals(rows: Rows, id: int, now: int): set<int>
    requires id in rows
  {
    set x | x in rows && x != id && IsDue(rows, x, now) && rows[x].due <= rows[id].due
  }

  lemma {:induction false} LeastExists<T>(s: set<T>, f: T -> int)
    requires s != {}
    ensures exists k :: k in s && forall m :: m in s ==> f(k) <= f(m)
  {
    var x :| x in s;
    if s != {x} {
      assert s == {x} + (s - {x});
      LeastExists(s - {x}, f);
      var k :| k in s - {x} && forall m :: m in s - {x} ==> f(k) <= f(m);
      var best := if f(x) <= f(k) then x else k;
      assert forall m :: m in s ==> m == x || m in s - {x};
      assert best in s && forall m :: m in s ==> f(best) <= f(m);
    }
  }

  predicate Least<T>(f: T -> int, a: T, b: T) { f(a) <= f(b) }

  /** `batch` is the first `n` elements of `s` in the order of `f`. */
  ghost predicate Selects<T(!new)>(batch: seq<T>, s: set<T>, f: T -> int, n: nat) {
    && |batch| == n
    && (forall x :: x in batch ==> x in s)
    && (forall j, k {:trigger Least(f, batch[j], batch[k])} ::
          0 <= j < k < |batch| ==> batch[j] != batch[k] && Least(f, batch[j], batch[k]))
    && (forall k, x {:trigger Least(f, batch[k], x)} :: 0 <= k < |batch| && x in s && x !in batch ==> Least(f, batch[k], x))
  }

  lemma {:induction false} SelectionExists<T(!new)>(s: set<T>, f: T -> int, n: nat) returns (batch: seq<T>)
    requires n <= |s|
    ensures Selects(batch, s, f, n)
  {
    if n == 0 {
      batch := [];
    } else {
      LeastExists(s, f);
      var x :| x in s && forall m :: m in s ==> f(x) <= f(m);
      var rest := SelectionExists(s - {x}, f, n - 1);
      batch := [x] + rest;
      forall j, k | 0 <= j < k < |batch| ensures batch[j] != batch[k] && Least(f, batch[j], batch[k]) {
        assert batch[k] == rest[k - 1] && rest[k - 1] in rest;
        assert j > 0 ==> Least(f, rest[j - 1], rest[k - 1]);
      }
      forall k, y | 0 <= k < |batch| && y in s && y !in batch ensures Least(f, batch[k], y) {
        assert y != x by { assert batch[0] == x; }
        assert y !in rest;
        assert k > 0 ==> Least(f, rest[k - 1], y);
      }
    }
  }

  function DueRows(rows: Rows, now: int): set<int> {
    set x | x in rows && IsDue(rows, x, now)
  }

  /** By due time, with `id` last among equals. */
  function Rank(rows: Rows, id: int): int -> int {
    (x: int) => if x in rows then 2 * rows[x].due + (if x == id then 1 else 0) else 0
  }

  /** With twenty rivals the database may leave a row out. */
  lemma RivalsMayGoFirst(rows: Rows, id: int, now: int) returns (batch: seq<int>)
    requires IsDue(rows, id, now) && |Rivals(rows, id, now)| >= 20
    ensures IsDueBatch(batch, rows, now, 20) && id !in batch
  {
    var due, rivals, f := DueRows(rows, now), Rivals(rows, id, now), Rank(rows, id);
    SubsetSize(rivals, due);
    assert |rivals + {id}| == |rivals| + 1;
    batch := SelectionExists(due, f, 20);
    forall j, k | 0 <= j < k < |batch| ensures batch[j] != batch[k] && DueNoLater(rows, batch[j], batch[k]) {
      assert batch[j] in due && batch[k] in due && Least(f, batch[j], batch[k]);
    }
    forall x | IsDue(rows, x, now) && x !in batch
      ensures forall k :: 0 <= k < |batch| ==> DueNoLater(rows, batch[k], x)
    {
      forall k | 0 <= k < |batch| ensures DueNoLater(rows, batch[k], x) {
        assert batch[k] in due && x in due && Least(f, batch[k], x);
      }
    }
    if id in batch {
      var k :| 0 <= k < |batch| && batch[k] == id;
      forall x | x in rivals ensures x in batch {
        assert x !in batch ==> x in due && Least(f, batch[k], x);
      }
      ElementsFit(rivals + {id}, batch);
    }
  }

  /** With fewer it cannot. */
  lemma TooFewRivals(rows: Rows, id: int, now: int, batch: seq<int>)
    requires IsDue(rows, id, now) && IsDueBatch(batch, rows, now, 20) && id !in batch
    ensures |Rivals(rows, id, now)| >= 20
  {
    forall k | 0 <= k < |batch| ensures batch[k] in Rivals(rows, id, now) {
      assert batch[k] in batch && DueNoLater(rows, batch[k], id);
    }
    DistinctFit(batch, Rivals(rows, id, now), rows);
  }

  lemma {:induction false} DistinctFit(batch: seq<int>, s: set<int>, rows: Rows)
    requires Ascending(batch, rows) && forall k :: 0 <= k < |batch| ==> batch[k] in s
    ensures |batch| <= |s|
  {
    if batch != [] {
      var n := |batch| - 1;
      forall k | 0 <= k < n ensures batch[..n][k] in s - {batch[n]} {
        assert DueNoLater(rows, batch[k], batch[n]);
      }
      forall j, k | 0 <= j < k < n ensures batch[..n][j] != batch[..n][k] && DueNoLater(rows, batch[..n][j], batch[..n][k]) {
        assert DueNoLater(rows, batch[j], batch[k]);
      }
      DistinctFit(batch[..n], s - {batch[n]}, rows);
    }
  }

  /** A due row is sure to be tried by the next drain exactly when fewer than twenty other due rows are due no later. */
  lemma SureToBeTriedIff(rows: Rows, id: int, now: int)
    requires IsDue(rows, id, now)
    ensures (forall batch :: IsDueBatch(batch, rows, now, 20) ==> id in batch) <==> |Rivals(rows, id, now)| < 20
  {
    hide IsDueBatch, Rivals;
    if |Rivals(rows, id, now)| >= 20 {
      var batch := RivalsMayGoFirst(rows, id, now);
    } else {
      forall batch | IsDueBatch(batch, rows, now, 20) ensures id in batch {
        if id !in batch {
          TooFewRivals(rows, id, now, batch);
        }
      }
    }
  }

  // ---- Exhausted rows stand in the way -----------------------------------------

  /** Rows that stay due earlier keep a newer mail from being tried. */
  lemma TwentyStuckRowsStarveOthers(rows: Rows, stuck: set<int>, batch: seq<int>, now: int, id: int)
    requires IsDueBatch(batch, rows, now, 20) && IsDue(rows, id, now)
    requires |stuck| >= 20 && forall x :: x in stuck ==> IsDue(rows, x, now) && rows[x].due < rows[id].due
    ensures id !in batch
  {
    if id in batch {
      var k :| 0 <= k < |batch| && batch[k] == id;
      forall x | x in stuck ensures x in batch {
        assert x !in batch ==> DueNoLater(rows, batch[k], x);
      }
      ElementsFit(stuck + {id}, batch);
    }
  }

  lemma {:induction false} RunJoins(rows: Rows, a: seq<Event>, b: seq<Event>)
    requires AdmissibleRun(rows, a) && AdmissibleRun(Run(rows, a), b)
    ensures AdmissibleRun(rows, a + b) && Run(rows, a + b) == Run(Run(rows, a), b)
  {
    if b == [] {
      assert a + b == a;
    } else {
      var n := |b| - 1;
      RunJoins(rows, a, b[..n]);
      assert (a + b)[..|a + b| - 1] == a + b[..n];
    }
  }

  /** A mail queued at 0 that fails each time it is due. */
  function Failing(id: int, k: nat): seq<Event>
    requires k <= MAX_ATTEMPTS + 1
  {
    if k == 0 then [Add(id, 0)]
    else Failing(id, k - 1) + [Attempt(id, Delay(k - 1), Delay(k - 1), false)]
  }

  /** The row after `k` such failures. */
  function Stuck(k: nat): Row {
    Row(k, Delay(if k <= MAX_ATTEMPTS then k else MAX_ATTEMPTS), None, 0)
  }

  lemma FailsAgain(rows: Rows, id: int, k: nat)
    requires id in rows && rows[id] == Stuck(k) && k <= MAX_ATTEMPTS
    ensures var e := Attempt(id, Delay(k), Delay(k), false);
      Admissible(rows, e) && After(rows, e) == rows[id := Stuck(k + 1)]
  {
  }

  lemma {:induction false} FailingReaches(rows: Rows, id: int, k: nat)
    requires id !in rows && k <= MAX_ATTEMPTS + 1
    ensures AdmissibleRun(rows, Failing(id, k)) && Run(rows, Failing(id, k)) == rows[id := Stuck(k)]
  {
    hide AdmissibleRun, Run, Delay;
    if k == 0 {
      RunOne(rows, Add(id, 0));
      assert Stuck(0) == Row(0, 0, None, 0) by { NoDelay(); }
    } else {
      FailingReaches(rows, id, k - 1);
      var e := Attempt(id, Delay(k - 1), Delay(k - 1), false);
      var before := Run(rows, Failing(id, k - 1));
      FailsAgain(before, id, k - 1);
      RunOne(before, e);
      RunJoins(rows, Failing(id, k - 1), [e]);
    }
  }

  lemma NoDelay()
    ensures Delay(0) == 0
  {
  }

  lemma RunOne(rows: Rows, e: Event)
    requires Admissible(rows, e)
    ensures AdmissibleRun(rows, [e]) && Run(rows, [e]) == After(rows, e)
  {
    assert [e][..0] == [];
    assert AdmissibleRun(rows, []);
  }

  /** Mails 0 to n - 1, each failing until its schedule is used up. */
  function Dead(n: nat): seq<Event> {
    if n == 0 then [] else Dead(n - 1) + Failing(n - 1, MAX_ATTEMPTS + 1)
  }

  lemma {:induction false} DeadReaches(n: nat)
    ensures AdmissibleRun(map[], Dead(n))
    ensures forall i :: i in Run(map[], Dead(n)) <==> 0 <= i < n
    ensures forall i :: 0 <= i < n ==> Run(map[], Dead(n))[i] == Row(MAX_ATTEMPTS + 1, 1041 * 60, None, 0)
  {
    hide Failing, Delay;
    if n > 0 {
      DeadReaches(n - 1);
      WholeSchedule();
      var before := Run(map[], Dead(n - 1));
      FailingReaches(before, n - 1, MAX_ATTEMPTS + 1);
      RunJoins(map[], Dead(n - 1), Failing(n - 1, MAX_ATTEMPTS + 1));
    }
  }

  function FirstIds(n: nat): (s: set<int>)
    ensures |s| == n && forall i :: i in s <==> 0 <= i < n
  {
    if n == 0 then {} else FirstIds(n - 1) + {n - 1}
  }

  /** A run reaches twenty or more exhausted rows, and from then on a newer mail is due and in no batch. */
  lemma ExhaustedRowsStarveOthers(n: nat, since: int, batch: seq<int>, now: int)
    requires n >= 20 && 1041 * 60 < since <= now
    ensures var es := Dead(n) + [Add(n, since)];
      && AdmissibleRun(map[], es)
      && IsDue(Run(map[], es), n, now)
      && (IsDueBatch(batch, Run(map[], es), now, 20) ==> n !in batch)
  {
    hide Dead, Run, AdmissibleRun;
    DeadReaches(n);
    var before := Run(map[], Dead(n));
    RunOne(before, Add(n, since));
    RunJoins(map[], Dead(n), [Add(n, since)]);
    var rows := After(before, Add(n, since));
    if IsDueBatch(batch, rows, now, 20) {
      TwentyStuckRowsStarveOthers(rows, FirstIds(n), batch, now, n);
    }
  }

  // ---- Sent once -------------------------------------------------------------

  lemma {:induction false} SentStaysSent(rows: Rows, es: seq<Event>, id: int)
    requires AdmissibleRun(rows, es) && id in rows && rows[id].sent.Some?
    ensures id in Run(rows, es) && Run(rows, es)[id] == rows[id]
    ensures forall k :: 0 <= k < |es| && es[k].Attempt? ==> es[k].id != id
  {
    if es != [] {
      SentStaysSent(rows, es[..|es| - 1], id);
    }
  }

  lemma {:induction false} RunSplits(rows: Rows, es: seq<Event>, n: nat)
    requires AdmissibleRun(rows, es) && n <= |es|
    ensures AdmissibleRun(rows, es[..n])
    ensures AdmissibleRun(Run(rows, es[..n]), es[n..])
    ensures Run(rows, es) == Run(Run(rows, es[..n]), es[n..])
  {
    if n < |es| {
      var m := |es| - 1;
      RunSplits(rows, es[..m], n);
      assert es[..m][..n] == es[..n] && es[..m][n..] == es[n..][..m - n];
    } else {
      assert es[..n] == es && es[n..] == [];
    }
  }

  /** Once delivered, a mail is never handed to the sender again. */
  lemma NeverSentTwice(rows: Rows, es: seq<Event>, j: nat, k: nat)
    requires AdmissibleRun(rows, es) && j < k < |es|
    requires es[j].Attempt? && es[j].ok && es[k].Attempt?
    ensures es[j].id != es[k].id
  {
    RunSplits(rows, es, j + 1);
    var after := Run(rows, es[..j + 1]);
    assert es[..j + 1][..j] == es[..j];
    assert after == After(Run(rows, es[..j]), es[j]);
    RunSplits(rows, es[..j + 1], j);
    assert Admissible(Run(rows, es[..j]), es[j]);
    SentStaysSent(after, es[j + 1..], es[j].id);
    assert es[j + 1..][k - j - 1] == es[k];
  }
}
