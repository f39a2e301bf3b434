/** The path of a heartbeat from the evaluator to the table, and what a shutdown does to it. */
module Recorder {
  import opened Base
  import opened Heartbeats

  const BUFFER := 1024
  const LAST_FLUSH := 500

  /** `batch` is what the writer has taken from the channel and not yet inserted; `live` is its context. */
  datatype Flow = Flow(buffer: seq<Beat>, batch: seq<Beat>, table: seq<Beat>, live: bool, writing: bool)

  const EMPTY := Flow([], [], [], true, true)

  datatype Event = Record(beat: Beat) | Take | Tick | Cancel | Leave | Drain

  /** An insert under a context that is already cancelled fails, and the batch is cleared all the same. */
  function Flushed(f: Flow): Flow {
    f.(table := if f.live then f.table + f.batch else f.table, batch := [])
  }

  function After(f: Flow, size: nat, e: Event): Flow {
    match e
    case Record(beat) => if |f.buffer| < BUFFER then f.(buffer := f.buffer + [beat]) else f
    case Take =>
      if !f.writing || f.buffer == [] then f
      else
        var g := f.(batch := f.batch + [f.buffer[0]], buffer := f.buffer[1..]);
        if |g.batch| >= size then Flushed(g) else g
    case Tick => if f.writing then Flushed(f) else f
    case Cancel => f.(live := false)
    case Leave => if f.writing && !f.live then Flushed(f).(writing := false) else f
    case Drain =>
      if f.writing then f
      else
        var n := Min(LAST_FLUSH, |f.buffer|);
        f.(table := f.table + f.buffer[..n], buffer := f.buffer[n..])
  }

  function Run(f: Flow, size: nat, events: seq<Event>): Flow {
    if events == [] then f else After(Run(f, size, events[..|events| - 1]), size, events[|events| - 1])
  }

  /** The heartbeat an event puts into the channel, if there is room. */
  function Admitted(f: Flow, e: Event): seq<Beat> {
    if e.Record? && |f.buffer| < BUFFER then [e.beat] else []
  }

  /** The heartbeats that found room in the channel, in order. */
  function Accepted(f: Flow, size: nat, events: seq<Event>): seq<Beat> {
    if events == [] then []
    else
      var n := |events| - 1;
      Accepted(f, size, events[..n]) + Admitted(Run(f, size, events[..n]), events[n])
  }

  /** The heartbeat an event takes out of the channel into the writer's batch. */
  function Withdrawn(f: Flow, e: Event): seq<Beat> {
    if e.Take? && f.writing && f.buffer != [] then [f.buffer[0]] else []
  }

  function Taken(f: Flow, size: nat, events: seq<Event>): seq<Beat> {
    if events == [] then []
    else
      var n := |events| - 1;
      Taken(f, size, events[..n]) + Withdrawn(Run(f, size, events[..n]), events[n])
  }

  lemma Regroup(a: seq<Beat>, b: seq<Beat>, c: seq<Beat>)
    ensures a + (b + c) == (a + b) + c
  {
  }

  lemma {:induction false} RunContinues(f: Flow, size: nat, events: seq<Event>, more: seq<Event>)
    ensures var g := Run(f, size, events);
      && Run(f, size, events + more) == Run(g, size, more)
      && Accepted(f, size, events + more) == Accepted(f, size, events) + Accepted(g, size, more)
      && Taken(f, size, events + more) == Taken(f, size, events) + Taken(g, size, more)
  {
    hide After, Admitted, Withdrawn;
    if more == [] {
      assert events + more == events;
      assert Accepted(f, size, events) + [] == Accepted(f, size, events);
      assert Taken(f, size, events) + [] == Taken(f, size, events);
    } else {
      var n := |more| - 1;
      var g := Run(f, size, events);
      RunContinues(f, size, events, more[..n]);
      var all := events + more;
      assert all[..|all| - 1] == events + more[..n] && all[|all| - 1] == more[n];
      Regroup(Accepted(f, size, events), Accepted(g, size, more[..n]), Admitted(Run(g, size, more[..n]), more[n]));
      Regroup(Taken(f, size, events), Taken(g, size, more[..n]), Withdrawn(Run(g, size, more[..n]), more[n]));
    }
  }

  lemma RunOne(f: Flow, size: nat, e: Event)
    ensures Run(f, size, [e]) == After(f, size, e) && Accepted(f, size, [e]) == Admitted(f, e)
    ensures Taken(f, size, [e]) == Withdrawn(f, e)
  {
    assert [e][..0] == [];
  }

  // ---- Until the cancel --------------------------------------------------------------

  lemma StepKeepsOrder(f: Flow, size: nat, e: Event)
    requires f.live && f.writing
    ensures var g := After(f, size, e);
      g.table + g.batch + g.buffer == f.table + f.batch + f.buffer + Admitted(f, e)
    ensures After(f, size, e).writing
  {
    match e
    case Take =>
      if f.buffer != [] {
        assert f.buffer == [f.buffer[0]] + f.buffer[1..];
        Regroup(f.table + f.batch, [f.buffer[0]], f.buffer[1..]);
        Regroup(f.table, f.batch, [f.buffer[0]]);
        assert f.table + (f.batch + [f.buffer[0]]) + [] == f.table + (f.batch + [f.buffer[0]]);
      }
    case Record(beat) => Regroup(f.table + f.batch, f.buffer, [beat]);
    case Tick => assert f.table + f.batch + [] == f.table + f.batch;
    case _ => assert f.buffer + [] == f.buffer;
  }

  ghost predicate Uncancelled(events: seq<Event>) {
    forall k :: 0 <= k < |events| ==> !events[k].Cancel?
  }

  /**
    Until the service is told to stop, every heartbeat that found room is in the table, in the
    writer's batch or in the channel, once and in order, and the channel holds at most 1024.
  */
  lemma {:induction false} NothingIsLostWhileRunning(size: nat, events: seq<Event>)
    requires Uncancelled(events)
    ensures var f := Run(EMPTY, size, events);
      && f.live && f.writing
      && f.table + f.batch + f.buffer == Accepted(EMPTY, size, events)
      && |f.buffer| <= 1024
  {
    if events != [] {
      var n := |events| - 1;
      NothingIsLostWhileRunning(size, events[..n]);
      StepKeepsOrder(Run(EMPTY, size, events[..n]), size, events[n]);
    }
  }

  lemma {:induction false} BatchStaysSmall(size: nat, events: seq<Event>)
    ensures |Run(EMPTY, size, events).batch| < Max(1, size)
  {
    if events != [] {
      BatchStaysSmall(size, events[..|events| - 1]);
    }
  }

  /**
    What each event of a running service does: a heartbeat is dropped only when 1024 wait, the
    writer takes the oldest and inserts as soon as `size` are in hand, and a tick inserts whatever is.
  */
  lemma EachEventMoves(size: nat, events: seq<Event>, e: Event)
    requires Uncancelled(events)
    ensures var f, g := Run(EMPTY, size, events), Run(EMPTY, size, events + [e]);
      && (e.Record? ==> g == f.(buffer := if |f.buffer| < 1024 then f.buffer + [e.beat] else f.buffer))
      && (e.Take? && f.buffer != [] ==>
            var taken := f.batch + [f.buffer[0]];
            g == if |taken| >= size then f.(buffer := f.buffer[1..], batch := [], table := f.table + taken)
                 else f.(buffer := f.buffer[1..], batch := taken))
      && (e.Tick? ==> g == f.(batch := [], table := f.table + f.batch))
      && |g.batch| < Max(1, size)
  {
    NothingIsLostWhileRunning(size, events);
    BatchStaysSmall(size, events + [e]);
    assert (events + [e])[..|events|] == events;
  }

  // ---- Shutdown ----------------------------------------------------------------------

  function Records(beats: seq<Beat>): (es: seq<Event>)
    ensures |es| == |beats| && forall k :: 0 <= k < |es| ==> es[k] == Record(beats[k])
  {
    if beats == [] then [] else Records(beats[..|beats| - 1]) + [Record(beats[|beats| - 1])]
  }

  /** The heartbeats a stretch of events offers to the channel. */
  function Offered(events: seq<Event>): seq<Beat> {
    if events == [] then []
    else
      var n := |events| - 1;
      Offered(events[..n]) + if events[n].Record? then [events[n].beat] else []
  }

  /** Between the cancel and its leaving the writer may still take and flush, in any order with new heartbeats. */
  ghost predicate Lingering(events: seq<Event>) {
    forall k :: 0 <= k < |events| ==> events[k].Record? || events[k].Take? || events[k].Tick?
  }

  /** The cancel, the time until the writer leaves, what is still offered after that, and the last drain. */
  function Shutdown(middle: seq<Event>, late: seq<Beat>): seq<Event> {
    [Cancel] + (middle + ([Leave] + (Records(late) + [Drain])))
  }

  lemma LingeringStep(f: Flow, size: nat, e: Event)
    requires !f.live && f.writing && |f.buffer| <= BUFFER && (e.Record? || e.Take? || e.Tick?)
    ensures var g := After(f, size, e);
      && g.table == f.table && !g.live && g.writing && |g.buffer| <= BUFFER
      && f.buffer + Admitted(f, e) == Withdrawn(f, e) + g.buffer
  {
  }

  /** After the cancel the table stands still, and what the writer takes leaves the channel for good. */
  lemma {:induction false} LingeringLoses(f: Flow, size: nat, middle: seq<Event>)
    requires !f.live && f.writing && Lingering(middle) && |f.buffer| <= BUFFER
    ensures var g := Run(f, size, middle);
      && g.table == f.table && !g.live && g.writing && |g.buffer| <= BUFFER
      && f.buffer + Accepted(f, size, middle) == Taken(f, size, middle) + g.buffer
  {
    hide After, Admitted, Withdrawn;
    if middle == [] {
      assert f.buffer + [] == f.buffer == [] + f.buffer;
    } else {
      var n := |middle| - 1;
      LingeringLoses(f, size, middle[..n]);
      assert middle[n].Record? || middle[n].Take? || middle[n].Tick?;
      var g := Run(f, size, middle[..n]);
      LingeringStep(g, size, middle[n]);
      Regroup(f.buffer, Accepted(f, size, middle[..n]), Admitted(g, middle[n]));
      Regroup(Taken(f, size, middle[..n]), g.buffer, Admitted(g, middle[n]));
      Regroup(Taken(f, size, middle[..n]), Withdrawn(g, middle[n]), After(g, size, middle[n]).buffer);
    }
  }

  /** What of `late` still fits into the channel. */
  function Room(f: Flow, late: seq<Beat>): seq<Beat> {
    late[..Min(|late|, Max(0, BUFFER - |f.buffer|))]
  }

  lemma RoomStep(f: Flow, size: nat, late: seq<Beat>)
    requires late != [] && |f.buffer| <= BUFFER
    ensures var n := |late| - 1;
      var g := f.(buffer := f.buffer + Room(f, late[..n]));
      && Room(f, late) == Room(f, late[..n]) + Admitted(g, Record(late[n]))
      && After(g, size, Record(late[n])) == f.(buffer := f.buffer + Room(f, late))
  {
    var n := |late| - 1;
    Regroup(f.buffer, Room(f, late[..n]), [late[n]]);
    assert late[..n] + [late[n]] == late;
  }

  /** Once the writer has left, the channel only fills up. */
  lemma {:induction false} LateOnesWait(f: Flow, size: nat, late: seq<Beat>)
    requires |f.buffer| <= BUFFER
    ensures Accepted(f, size, Records(late)) == Room(f, late)
    ensures Run(f, size, Records(late)) == f.(buffer := f.buffer + Room(f, late))
  {
    hide After, Admitted;
    if late == [] {
      assert f.buffer + [] == f.buffer;
    } else {
      var n := |late| - 1;
      LateOnesWait(f, size, late[..n]);
      var es := Records(late);
      assert es[..n] == Records(late[..n]);
      RoomStep(f, size, late);
    }
  }

  /** What is in the channel when it is drained for the last time. */
  function AtDrain(f: Flow, size: nat, middle: seq<Event>, late: seq<Beat>): seq<Beat> {
    var g := Run(f, size, middle);
    g.buffer + Room(g, late)
  }

  /** The rest of a shutdown, from the moment of the cancel. */
  lemma AfterTheCancel(f: Flow, size: nat, middle: seq<Event>, late: seq<Beat>)
    requires !f.live && f.writing && Lingering(middle) && |f.buffer| <= BUFFER
    ensures var es := middle + ([Leave] + (Records(late) + [Drain]));
      var rest := AtDrain(f, size, middle, late);
      && Run(f, size, es).table == f.table + rest[..Min(LAST_FLUSH, |rest|)]
      && Accepted(f, size, es) == Accepted(f, size, middle) + Room(Run(f, size, middle), late)
  {
    hide Run, Accepted, Taken;
    LingeringLoses(f, size, middle);
    var g := Run(f, size, middle);
    var h := After(g, size, Leave);
    RunContinues(f, size, middle, [Leave] + (Records(late) + [Drain]));
    RunContinues(g, size, [Leave], Records(late) + [Drain]);
    RunOne(g, size, Leave);
    RunContinues(h, size, Records(late), [Drain]);
    LateOnesWait(h, size, late);
    RunOne(Run(h, size, Records(late)), size, Drain);
    assert [] + (Room(g, late) + []) == Room(g, late);
  }

  /**
    One shutdown, whatever the order of events: the table gains the oldest 500 of what is in
    the channel at the drain. Lost are what the writer had in hand, what it took after the
    cancel, and the channel beyond 500.
  */
  lemma ShutdownKeeps(size: nat, events: seq<Event>, middle: seq<Event>, late: seq<Beat>)
    requires Uncancelled(events) && Lingering(middle)
    ensures var f := Run(EMPTY, size, events);
      var c := f.(live := false);
      var all := events + Shutdown(middle, late);
      var rest := AtDrain(c, size, middle, late);
      && Run(EMPTY, size, all).table == f.table + rest[..Min(500, |rest|)]
      && Accepted(EMPTY, size, all) == f.table + f.batch + Taken(c, size, middle) + rest
  {
    hide Run, Accepted, Taken, Room;
    NothingIsLostWhileRunning(size, events);
    var f := Run(EMPTY, size, events);
    var c := f.(live := false);
    var tail := middle + ([Leave] + (Records(late) + [Drain]));
    RunContinues(EMPTY, size, events, Shutdown(middle, late));
    RunContinues(f, size, [Cancel], tail);
    RunOne(f, size, Cancel);
    AfterTheCancel(c, size, middle, late);
    LingeringLoses(c, size, middle);
    Joined(f.table + f.batch, f.buffer, Accepted(c, size, middle), Room(Run(c, size, middle), late),
           Taken(c, size, middle), Run(c, size, middle).buffer);
  }

  lemma Joined(kept: seq<Beat>, buffer: seq<Beat>, more: seq<Beat>, room: seq<Beat>, taken: seq<Beat>, left: seq<Beat>)
    requires buffer + more == taken + left
    ensures kept + buffer + ([] + (more + room)) == kept + taken + (left + room)
  {
    Regroup(kept + buffer, more, room);
    Regroup(kept, buffer, more);
    Regroup(kept, taken, left);
    Regroup(kept + taken, left, room);
    assert [] + (more + room) == more + room;
  }

  predicate KeepsAll(size: nat, events: seq<Event>, middle: seq<Event>, late: seq<Beat>) {
    var all := events + Shutdown(middle, late);
    Run(EMPTY, size, all).table == Accepted(EMPTY, size, all)
  }

  /** One shutdown loses nothing exactly when the writer held and took nothing and the channel did not outgrow the drain. */
  lemma ShutdownLosesNothingIff(size: nat, events: seq<Event>, middle: seq<Event>, late: seq<Beat>)
    requires Uncancelled(events) && Lingering(middle)
    ensures var f := Run(EMPTY, size, events);
      var c := f.(live := false);
      KeepsAll(size, events, middle, late)
      <==> f.batch == [] && Taken(c, size, middle) == [] && |AtDrain(c, size, middle, late)| <= 500
  {
    hide Run, Accepted, Taken, AtDrain;
    ShutdownKeeps(size, events, middle, late);
    var f := Run(EMPTY, size, events);
    var taken := Taken(f.(live := false), size, middle);
    var rest := AtDrain(f.(live := false), size, middle, late);
    if f.batch == [] && taken == [] && |rest| <= LAST_FLUSH {
      assert f.table + [] + [] + rest == f.table + rest;
    }
  }

  // ---- Every shutdown ----------------------------------------------------------------

  lemma {:induction false} OfferedJoins(a: seq<Event>, b: seq<Event>)
    ensures Offered(a + b) == Offered(a) + Offered(b)
  {
    if b == [] {
      assert a + b == a && Offered(a) + [] == Offered(a);
    } else {
      var n := |b| - 1;
      OfferedJoins(a, b[..n]);
      assert (a + b)[..|a + b| - 1] == a + b[..n];
      Regroup(Offered(a), Offered(b[..n]), if b[n].Record? then [b[n].beat] else []);
    }
  }

  lemma {:induction false} RecordsOffer(beats: seq<Beat>)
    ensures Offered(Records(beats)) == beats
  {
    if beats != [] {
      var n := |beats| - 1;
      RecordsOffer(beats[..n]);
      assert Records(beats)[..n] == Records(beats[..n]);
      assert beats[..n] + [beats[n]] == beats;
    }
  }

  lemma {:induction false} NothingOffered(f: Flow, size: nat, middle: seq<Event>)
    requires Offered(middle) == []
    ensures Accepted(f, size, middle) == []
  {
    if middle != [] {
      NothingOffered(f, size, middle[..|middle| - 1]);
    }
  }

  /** An order of events in which the writer takes one more heartbeat after the cancel. */
  function Unlucky(buffer: seq<Beat>, offers: seq<Beat>): seq<Event> {
    if buffer != [] then [Take] + Records(offers)
    else if offers != [] then [Record(offers[0]), Take] + Records(offers[1..])
    else []
  }

  lemma TakesAtOnce(f: Flow, size: nat, more: seq<Event>)
    requires f.writing && f.buffer != []
    ensures Taken(f, size, [Take] + more) != [] && Offered([Take] + more) == Offered(more)
  {
    hide Run, Accepted, Taken, Offered;
    OfferedJoins([Take], more);
    OfferedOne(Take);
    assert [] + Offered(more) == Offered(more);
    RunContinues(f, size, [Take], more);
    RunOne(f, size, Take);
  }

  lemma UnluckyTakes(f: Flow, size: nat, offers: seq<Beat>)
    requires f.writing && (f.buffer != [] || offers != [])
    ensures var middle := Unlucky(f.buffer, offers);
      Lingering(middle) && Offered(middle) == offers && Taken(f, size, middle) != []
  {
    hide Run, Accepted, Taken, Offered;
    if f.buffer != [] {
      TakesAtOnce(f, size, Records(offers));
      RecordsOffer(offers);
    } else {
      var r, more := Record(offers[0]), [Take] + Records(offers[1..]);
      assert Unlucky(f.buffer, offers) == [r] + more;
      RunContinues(f, size, [r], more);
      RunOne(f, size, r);
      TakesAtOnce(After(f, size, r), size, Records(offers[1..]));
      RecordsOffer(offers[1..]);
      OfferedJoins([r], more);
      OfferedOne(r);
    }
  }

  lemma OfferedOne(e: Event)
    ensures Offered([e]) == if e.Record? then [e.beat] else []
  {
    assert [e][..0] == [];
  }

  /**
    No order of events after the cancel loses a heartbeat exactly when, at the cancel, the
    writer had nothing in hand and the channel was empty, none was offered before the writer
    left, and at most 500 after.
  */
  lemma EveryShutdownKeepsAllIff(size: nat, events: seq<Event>, offers: seq<Beat>, late: seq<Beat>)
    requires Uncancelled(events)
    ensures var f := Run(EMPTY, size, events);
      (forall middle :: Lingering(middle) && Offered(middle) == offers ==> KeepsAll(size, events, middle, late))
      <==> f.batch == [] && f.buffer == [] && offers == [] && |late| <= 500
  {
    hide Run, Accepted, Taken;
    NothingIsLostWhileRunning(size, events);
    var f := Run(EMPTY, size, events);
    var c := f.(live := false);
    if f.buffer != [] || offers != [] {
      UnluckyTakes(c, size, offers);
      ShutdownLosesNothingIff(size, events, Unlucky(f.buffer, offers), late);
    } else {
      assert Lingering([]) && Offered([]) == offers;
      forall middle | Lingering(middle) && Offered(middle) == offers
        ensures KeepsAll(size, events, middle, late) <==> f.batch == [] && |late| <= LAST_FLUSH
      {
        NothingOffered(c, size, middle);
        LingeringLoses(c, size, middle);
        ShutdownLosesNothingIff(size, events, middle, late);
        assert Run(c, size, middle).buffer == [];
      }
    }
  }

  // ---- The code itself ---------------------------------------------------------------

  class Recorder {
    const size: nat
    var buffer: seq<Beat>
    var batch: seq<Beat>
    var table: seq<Beat>
    var live: bool
    var writing: bool

    constructor (size: nat)
      ensures View() == EMPTY && this.size == size
    {
      this.size := size;
      buffer, batch, table, live, writing := [], [], [], true, true;
    }

    function View(): Flow
      reads this
    {
      Flow(buffer, batch, table, live, writing)
    }

    /** A full channel drops the sample rather than hold up the evaluator. */
    method Record(beat: Beat)
      modifies this`buffer
      ensures View() == After(old(View()), size, Event.Record(beat))
    {
      if |buffer| < BUFFER {
        buffer := buffer + [beat];
      }
    }

    method Flush()
      modifies this`batch, this`table
      ensures View() == Flushed(old(View()))
    {
      if batch == [] {
        return;
      }
      if live {
        table := table + batch;
      }
      batch := [];
    }

    /** The writer's turn with a heartbeat waiting. */
    method Take()
      requires writing && buffer != []
      modifies this
      ensures View() == After(old(View()), size, Event.Take)
    {
      batch := batch + [buffer[0]];
      buffer := buffer[1..];
      if |batch| >= size {
        Flush();
      }
    }

    /** The writer notices the cancelled context, flushes under it and leaves. */
    method Leave()
      requires writing && !live
      modifies this
      ensures View() == After(old(View()), size, Event.Leave)
    {
      Flush();
      writing := false;
    }

    /** Takes what is left in the channel until it is empty or 500 have been taken. */
    method FlushRemaining()
      requires !writing
      modifies this
      ensures View() == After(old(View()), size, Event.Drain)
    {
      var last: seq<Beat> := [];
      while buffer != []
        invariant |last| <= LAST_FLUSH && |last| <= |old(buffer)|
        invariant last == old(buffer)[..|last|] && buffer == old(buffer)[|last|..]
        invariant batch == old(batch) && table == old(table) && live == old(live) && writing == old(writing)
        decreases |buffer|
      {
        if |last| == LAST_FLUSH {
          break;
        }
        last := last + [buffer[0]];
        buffer := buffer[1..];
      }
      table := table + last;
    }
  }
}
