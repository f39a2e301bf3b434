/** The event hub: publishing never blocks, and a subscriber that falls behind loses events. */
module Hub {
  datatype EventType = DeviceStatus | GroupStatus | Heartbeat | IncidentChange | Settings

  const ALL_TYPES: set<EventType> := {DeviceStatus, GroupStatus, Heartbeat, IncidentChange, Settings}

  const BUFFER := 256

  datatype Event = Event(kind: EventType, data: string)

  /** One subscriber's channel. */
  datatype Channel = Channel(types: set<EventType>, buffer: seq<Event>, closed: bool)

  /** Channels in the order they were made; `subs` are the registered ones. */
  datatype State = State(channels: seq<Channel>, subs: set<int>, dropped: nat)

  const EMPTY := State([], {}, 0)

  // ---- Steps, each under the hub's lock or on one channel ------------------------

  datatype Step =
    | Subscribe(types: set<EventType>)
    | Publish(ev: Event)
    | Receive(id: int)
    | Detach(id: int)   // unsubscribe, first half: leave the registry
    | Close(id: int)    // unsubscribe, second half: close the channel

  predicate Wanted(s: State, id: int, ev: Event) {
    0 <= id < |s.channels| && id in s.subs && ev.kind in s.channels[id].types
  }

  predicate Full(c: Channel) { |c.buffer| >= BUFFER }

  function Offer(s: State, ev: Event, n: nat): seq<Channel>
    requires n <= |s.channels|
  {
    if n == 0 then []
    else
      var c := s.channels[n - 1];
      Offer(s, ev, n - 1) + [if Wanted(s, n - 1, ev) && !Full(c) then c.(buffer := c.buffer + [ev]) else c]
  }

  /** How many of the first `n` subscribers are too far behind for this event. */
  function Dropping(s: State, ev: Event, n: nat): nat
    requires n <= |s.channels|
  {
    if n == 0 then 0
    else Dropping(s, ev, n - 1) + if Wanted(s, n - 1, ev) && Full(s.channels[n - 1]) then 1 else 0
  }

  predicate Enabled(s: State, step: Step) {
    match step
    case Subscribe(_) => true
    case Publish(_) => true
    case Receive(id) => 0 <= id < |s.channels| && s.channels[id].buffer != []
    case Detach(id) => id in s.subs
    case Close(id) => 0 <= id < |s.channels| && id !in s.subs && !s.channels[id].closed
  }

  /** A step that is not enabled waits, so it changes nothing. */
  function Next(s: State, step: Step): State {
    if !Enabled(s, step) then s else
    match step
    case Subscribe(types) =>
      s.(channels := s.channels + [Channel(if types == {} then ALL_TYPES else types, [], false)],
         subs := s.subs + {|s.channels|})
    case Publish(ev) =>
      s.(channels := Offer(s, ev, |s.channels|), dropped := s.dropped + Dropping(s, ev, |s.channels|))
    case Receive(id) =>
      s.(channels := s.channels[id := s.channels[id].(buffer := s.channels[id].buffer[1..])])
    case Detach(id) => s.(subs := s.subs - {id})
    case Close(id) => s.(channels := s.channels[id := s.channels[id].(closed := true)])
  }

  class Hub {
    var channels: seq<Channel>
    var subs: set<int>
    var dropped: nat

    constructor ()
      ensures View() == EMPTY
    {
      channels, subs, dropped := [], {}, 0;
    }

    function View(): State
      reads this
    {
      State(channels, subs, dropped)
    }

    method Subscribe(types: set<EventType>) returns (id: int)
      modifies this
      ensures id == |old(channels)| && View() == Next(old(View()), Step.Subscribe(types))
    {
      id := |channels|;
      channels := channels + [Channel(if types == {} then ALL_TYPES else types, [], false)];
      subs := subs + {id};
    }

    /** Subscribers are independent of each other, so the order they are visited in does not matter. */
    method Publish(ev: Event)
      modifies this
      ensures View() == Next(old(View()), Step.Publish(ev))
    {
      ghost var s := View();
      for n := 0 to |channels|
        invariant |channels| == |s.channels| && subs == s.subs
        invariant channels[..n] == Offer(s, ev, n) && channels[n..] == s.channels[n..]
        invariant dropped == s.dropped + Dropping(s, ev, n)
      {
        var c := channels[n];
        assert c == s.channels[n] by { assert channels[n..][0] == s.channels[n..][0]; }
        ghost var before := channels;
        if n in subs && ev.kind in c.types {
          if |c.buffer| < BUFFER {
            channels := channels[n := c.(buffer := c.buffer + [ev])];
          } else {
            dropped := dropped + 1;
          }
        }
        assert channels[..n + 1] == before[..n] + [channels[n]];
        assert channels[n + 1..] == before[n..][1..] && s.channels[n + 1..] == s.channels[n..][1..];
      }
      assert channels[..|channels|] == channels;
    }

    method Receive(id: int) returns (ev: Event)
      requires Enabled(View(), Step.Receive(id))
      modifies this
      ensures ev == old(channels)[id].buffer[0] && View() == Next(old(View()), Step.Receive(id))
    {
      ev := channels[id].buffer[0];
      channels := channels[id := channels[id].(buffer := channels[id].buffer[1..])];
    }

    method Detach(id: int)
      requires Enabled(View(), Step.Detach(id))
      modifies this
      ensures View() == Next(old(View()), Step.Detach(id))
    {
      subs := subs - {id};
    }

    method Close(id: int)
      requires Enabled(View(), Step.Close(id))
      modifies this
      ensures View() == Next(old(View()), Step.Close(id))
    {
      channels := channels[id := channels[id].(closed := true)];
    }
  }

  // ---- What publishing does ------------------------------------------------------

  /** The registered subscribers of this type of event that are 256 events behind. */
  function Behind(s: State, ev: Event, n: nat): set<int>
    requires n <= |s.channels|
  {
    set k | 0 <= k < n && k in s.subs && ev.kind in s.channels[k].types && |s.channels[k].buffer| >= 256
  }

  lemma {:induction false} DroppingCounts(s: State, ev: Event, n: nat)
    requires n <= |s.channels|
    ensures Dropping(s, ev, n) == |Behind(s, ev, n)|
  {
    if n > 0 {
      DroppingCounts(s, ev, n - 1);
      var less := Behind(s, ev, n - 1);
      assert Behind(s, ev, n) == if Wanted(s, n - 1, ev) && Full(s.channels[n - 1]) then less + {n - 1} else less;
    } else {
      assert Behind(s, ev, 0) == {};
    }
  }

  /**
    An event is appended to the channel of each registered subscriber that asked for its type and
    has fewer than 256 waiting; each that has more misses it, and is counted once. Nobody else
    sees it and nothing else changes.
  */
  lemma PublishReaches(s: State, ev: Event, id: nat)
    requires id < |s.channels|
    ensures var s', c := Next(s, Publish(ev)), s.channels[id];
      && |s'.channels| == |s.channels| && s'.subs == s.subs
      && s'.dropped == s.dropped + |Behind(s, ev, |s.channels|)|
      && s'.channels[id] == (if id in s.subs && ev.kind in c.types && |c.buffer| < 256
                             then c.(buffer := c.buffer + [ev]) else c)
  {
    OfferAt(s, ev, |s.channels|);
    DroppingCounts(s, ev, |s.channels|);
  }

  // ---- Every interleaving ------------------------------------------------------

  function Run(steps: seq<Step>): State {
    if steps == [] then EMPTY else Next(Run(steps[..|steps| - 1]), steps[|steps| - 1])
  }

  /** Channel `id` was made by step `j`, the subscription before which there were `id` channels. */
  ghost predicate MadeBy(steps: seq<Step>, id: int, j: int) {
    0 <= j < |steps| && steps[j].Subscribe? && |Run(steps[..j]).channels| == id
  }

  ghost predicate StillRegistered(steps: seq<Step>, id: int) {
    exists j :: MadeBy(steps, id, j) && forall k :: 0 <= j < k < |steps| ==> steps[k] != Detach(id)
  }

  lemma MadeEarlier(steps: seq<Step>, id: int, j: int)
    requires steps != []
    ensures MadeBy(steps, id, j) <==>
      MadeBy(steps[..|steps| - 1], id, j)
      || (j == |steps| - 1 && steps[j].Subscribe? && |Run(steps[..j]).channels| == id)
  {
    var n := |steps| - 1;
    if 0 <= j < n {
      assert steps[..n][..j] == steps[..j] && steps[..n][j] == steps[j];
    }
  }

  /** A subscriber is registered exactly from the step that made its channel until it detaches. */
  lemma {:induction false} RegisteredIff(steps: seq<Step>, id: int)
    ensures id in Run(steps).subs <==> StillRegistered(steps, id)
  {
    hide MadeBy;
    if steps == [] {
      NothingMade(id);
    } else {
      var n := |steps| - 1;
      var before := steps[..n];
      RegisteredIff(before, id);
      if id in Run(steps).subs {
        if StillRegistered(before, id) {
          var j :| MadeBy(before, id, j) && forall k :: 0 <= j < k < n ==> before[k] != Detach(id);
          MadeEarlier(steps, id, j);
          MadeInRange(before, id, j);
          assert MadeBy(steps, id, j);
          forall k | j < k < |steps| ensures steps[k] != Detach(id) {
            assert k < n ==> steps[k] == before[k];
          }
        } else {
          MadeEarlier(steps, id, n);
          assert MadeBy(steps, id, n);
        }
      }
      if StillRegistered(steps, id) {
        var j :| MadeBy(steps, id, j) && forall k :: 0 <= j < k < |steps| ==> steps[k] != Detach(id);
        MadeEarlier(steps, id, j);
        MadeInRange(steps, id, j);
        if MadeBy(before, id, j) {
          MadeInRange(before, id, j);
          forall k | j < k < n ensures before[k] != Detach(id) {
            assert steps[k] == before[k];
          }
          assert StillRegistered(before, id);
        }
      }
    }
  }

  lemma NothingMade(id: int)
    ensures !StillRegistered([], id)
  {
  }

  lemma MadeInRange(steps: seq<Step>, id: int, j: int)
    requires MadeBy(steps, id, j)
    ensures 0 <= j < |steps| && steps[j].Subscribe?
  {
  }

  /** The types a subscription asked for, or every type when it named none. */
  ghost predicate Asked(types: set<EventType>, named: set<EventType>) {
    forall kind :: kind in types <==> named == {} || kind in named
  }

  /** A channel carries the types it was subscribed to. */
  lemma {:induction false} TypesAre(steps: seq<Step>, id: int)
    requires 0 <= id < |Run(steps).channels|
    ensures exists j :: MadeBy(steps, id, j) && Asked(Run(steps).channels[id].types, steps[j].types)
  {
    hide Asked, Next;
    var n := |steps| - 1;
    var before, step := steps[..n], steps[n];
    if id < |Run(before).channels| {
      TypesAre(before, id);
      var j :| MadeBy(before, id, j) && Asked(Run(before).channels[id].types, before[j].types);
      MadeEarlier(steps, id, j);
      MadeInRange(before, id, j);
      TypesStay(Run(before), step, id);
      assert steps[j] == before[j];
    } else {
      ChannelsStay(Run(before), step);
      NewChannel(Run(before), step);
      MadeEarlier(steps, id, n);
      assert MadeBy(steps, id, n) && Asked(Run(steps).channels[id].types, steps[n].types);
    }
  }

  lemma NewChannel(s: State, step: Step)
    ensures var s' := Next(s, step);
      |s'.channels| > |s.channels| ==>
        |s'.channels| == |s.channels| + 1 && step.Subscribe? && Asked(s'.channels[|s.channels|].types, step.types)
  {
    forall kind: EventType ensures kind in ALL_TYPES {
      match kind
      case DeviceStatus =>
      case GroupStatus =>
      case Heartbeat =>
      case IncidentChange =>
      case Settings =>
    }
    if step.Publish? {
      OfferAt(s, step.ev, |s.channels|);
    }
  }

  lemma TypesStay(s: State, step: Step, id: nat)
    requires id < |s.channels|
    ensures id < |Next(s, step).channels| && Next(s, step).channels[id].types == s.channels[id].types
  {
    if step.Publish? {
      OfferAt(s, step.ev, |s.channels|);
    }
  }

  /** The events of its types published while a subscriber was registered. */
  function Offered(steps: seq<Step>, id: int): seq<Event> {
    if steps == [] then []
    else
      var n := |steps| - 1;
      var earlier := Offered(steps[..n], id);
      if steps[n].Publish? && Wanted(Run(steps[..n]), id, steps[n].ev) then earlier + [steps[n].ev] else earlier
  }

  /** What a subscriber has taken from its channel. */
  function Received(steps: seq<Step>, id: int): seq<Event> {
    if steps == [] then []
    else
      var n := |steps| - 1;
      var earlier := Received(steps[..n], id);
      if steps[n] == Receive(id) && Enabled(Run(steps[..n]), steps[n]) then earlier + [Run(steps[..n]).channels[id].buffer[0]] else earlier
  }

  function BufferOf(s: State, id: int): seq<Event> {
    if 0 <= id < |s.channels| then s.channels[id].buffer else []
  }

  /** What a subscriber got or can still get. */
  function Reached(steps: seq<Step>, id: int): seq<Event> {
    Received(steps, id) + BufferOf(Run(steps), id)
  }

  /** `a` is `b` with some elements left out, in the same order. */
  predicate Subsequence(a: seq<Event>, b: seq<Event>)
    decreases b
  {
    a == [] ||
    (b != [] &&
     ((a[|a| - 1] == b[|b| - 1] && Subsequence(a[..|a| - 1], b[..|b| - 1])) || Subsequence(a, b[..|b| - 1])))
  }

  lemma OneMore(a: seq<Event>, b: seq<Event>, ev: Event)
    requires Subsequence(a, b)
    ensures Subsequence(a + [ev], b + [ev]) && Subsequence(a, b + [ev])
  {
    assert (a + [ev])[..|a|] == a && (b + [ev])[..|b|] == b;
  }

  lemma {:induction false} OfferAt(s: State, ev: Event, n: nat)
    requires n <= |s.channels|
    ensures var o := Offer(s, ev, n);
      |o| == n && forall k :: 0 <= k < n ==>
        var c := s.channels[k];
        o[k] == if Wanted(s, k, ev) && !Full(c) then c.(buffer := c.buffer + [ev]) else c
  {
    if n > 0 {
      OfferAt(s, ev, n - 1);
    }
  }

  /** Shape of every reachable state: registered channels are open, and no buffer exceeds its bound. */
  ghost predicate Sound(s: State) {
    && (forall id :: id in s.subs ==> 0 <= id < |s.channels| && !s.channels[id].closed)
    && (forall k :: 0 <= k < |s.channels| ==> |s.channels[k].buffer| <= BUFFER)
  }

  lemma NextKeepsSound(s: State, step: Step)
    requires Sound(s)
    ensures Sound(Next(s, step))
  {
    if step.Publish? {
      OfferAt(s, step.ev, |s.channels|);
    }
  }

  lemma RunOneMore(steps: seq<Step>, step: Step)
    ensures Run(steps + [step]) == Next(Run(steps), step)
  {
    assert (steps + [step])[..|steps|] == steps;
  }

  lemma BufferAfter(s: State, step: Step, id: int)
    ensures BufferOf(Next(s, step), id)
      == if step.Publish? && Wanted(s, id, step.ev) && !Full(s.channels[id]) then BufferOf(s, id) + [step.ev]
         else if step == Receive(id) && Enabled(s, step) then BufferOf(s, id)[1..]
         else BufferOf(s, id)
  {
    if step.Publish? {
      OfferAt(s, step.ev, |s.channels|);
    }
  }

  lemma ReceivedAfter(steps: seq<Step>, step: Step, id: int)
    ensures var s := Run(steps);
      Received(steps + [step], id)
      == if step == Receive(id) && Enabled(s, step) then Received(steps, id) + [BufferOf(s, id)[0]] else Received(steps, id)
    ensures Offered(steps + [step], id)
      == if step.Publish? && Wanted(Run(steps), id, step.ev) then Offered(steps, id) + [step.ev] else Offered(steps, id)
  {
    var all := steps + [step];
    assert all[..|steps|] == steps && all[|steps|] == step;
  }

  /** What one more step adds to one subscriber's stream. */
  lemma ReachedAfter(steps: seq<Step>, step: Step, id: int)
    ensures var s := Run(steps);
      Reached(steps + [step], id)
      == if step.Publish? && Wanted(s, id, step.ev) && !Full(s.channels[id])
         then Reached(steps, id) + [step.ev] else Reached(steps, id)
    ensures Offered(steps + [step], id)
      == if step.Publish? && Wanted(Run(steps), id, step.ev) then Offered(steps, id) + [step.ev] else Offered(steps, id)
  {
    hide Run, Received, Offered, Next, Wanted, Full;
    var s := Run(steps);
    RunOneMore(steps, step);
    BufferAfter(s, step, id);
    ReceivedAfter(steps, step, id);
    var got, b := Received(steps, id), BufferOf(s, id);
    if step.Publish? {
      assert got + (b + [step.ev]) == got + b + [step.ev];
    } else if step == Receive(id) && Enabled(s, step) {
      assert got + [b[0]] + b[1..] == got + b;
    }
  }

  lemma NothingYet(id: int)
    ensures Reached([], id) == [] == Offered([], id) && Sound(Run([]))
    ensures Subsequence(Reached([], id), Offered([], id))
  {
  }

  /** One subscriber's stream after a run. */
  lemma {:induction false} StreamIsOrdered(steps: seq<Step>, id: int)
    ensures Sound(Run(steps))
    ensures Subsequence(Reached(steps, id), Offered(steps, id))
  {
    hide Received, Offered, Full, Next, Sound;
    if steps == [] {
      NothingYet(id);
    } else {
      var n := |steps| - 1;
      assert steps == steps[..n] + [steps[n]];
      StreamIsOrdered(steps[..n], id);
      NextKeepsSound(Run(steps[..n]), steps[n]);
      ReachedAfter(steps[..n], steps[n], id);
      if steps[n].Publish? {
        OneMore(Reached(steps[..n], id), Offered(steps[..n], id), steps[n].ev);
      }
    }
  }

  function Missing(steps: seq<Step>, id: int): int {
    |Offered(steps, id)| - |Reached(steps, id)|
  }

  function AllMissing(steps: seq<Step>, n: nat): int {
    if n == 0 then 0 else AllMissing(steps, n - 1) + Missing(steps, n - 1)
  }

  lemma MissingAfter(steps: seq<Step>, step: Step, id: int)
    ensures Missing(steps + [step], id) == Missing(steps, id)
      + if step.Publish? && Wanted(Run(steps), id, step.ev) && Full(Run(steps).channels[id]) then 1 else 0
  {
    hide Run, Full, Reached, Offered;
    ReachedAfter(steps, step, id);
  }

  /** Nobody misses anything before subscribing. */
  lemma {:induction false} NothingMissedYet(steps: seq<Step>, id: int)
    requires id >= |Run(steps).channels|
    ensures Missing(steps, id) == 0
  {
    hide Missing;
    if steps == [] {
      NoneMissing(id);
    } else {
      var n := |steps| - 1;
      assert steps == steps[..n] + [steps[n]];
      ChannelsStay(Run(steps[..n]), steps[n]);
      NothingMissedYet(steps[..n], id);
      MissingAfter(steps[..n], steps[n], id);
    }
  }

  lemma NoneMissing(id: int)
    ensures Missing([], id) == 0
  {
    NothingYet(id);
  }

  lemma ChannelsStay(s: State, step: Step)
    ensures |s.channels| <= |Next(s, step).channels|
  {
    if step.Publish? {
      OfferAt(s, step.ev, |s.channels|);
    }
  }

  /** A step changes what all subscribers together miss by what it drops. */
  lemma {:induction false} AllMissingAfter(steps: seq<Step>, step: Step, n: nat)
    requires n <= |Run(steps).channels|
    ensures AllMissing(steps + [step], n)
         == AllMissing(steps, n) + if step.Publish? then Dropping(Run(steps), step.ev, n) else 0
  {
    hide Run, Wanted, Full, Missing;
    if n > 0 {
      AllMissingAfter(steps, step, n - 1);
      MissingAfter(steps, step, n - 1);
    }
  }

  lemma CounterAfter(steps: seq<Step>, step: Step)
    requires Run(steps).dropped == AllMissing(steps, |Run(steps).channels|)
    ensures var s := Run(steps + [step]);
      s.dropped == AllMissing(steps + [step], |s.channels|)
  {
    hide Run, Wanted, Full, Missing, Offer, Dropping;
    var s := Run(steps);
    RunOneMore(steps, step);
    AllMissingAfter(steps, step, |s.channels|);
    if step.Publish? {
      OfferAt(s, step.ev, |s.channels|);
    } else if step.Subscribe? {
      NothingMissedYet(steps, |s.channels|);
      MissingAfter(steps, step, |s.channels|);
    }
  }

  lemma {:induction false} CounterMatches(steps: seq<Step>)
    ensures Run(steps).dropped == AllMissing(steps, |Run(steps).channels|)
  {
    if steps != [] {
      var n := |steps| - 1;
      CounterMatches(steps[..n]);
      CounterAfter(steps[..n], steps[n]);
      assert steps[..n] + [steps[n]] == steps;
    }
  }

  /**
    Over every interleaving of subscribing, publishing, receiving and the two halves of
    unsubscribing: nothing is ever sent on a closed channel, buffers stay bounded, each
    subscriber sees its events in order, and what all of them together missed is the counter.
  */
  lemma DroppedCountsTheMissing(steps: seq<Step>, id: int)
    ensures var s := Run(steps);
      && Sound(s)
      && s.dropped == AllMissing(steps, |s.channels|)
      && Subsequence(Reached(steps, id), Offered(steps, id))
      && Missing(steps, id) >= 0
  {
    StreamIsOrdered(steps, id);
    CounterMatches(steps);
    ShorterSubsequence(Reached(steps, id), Offered(steps, id));
  }

  lemma {:induction false} ShorterSubsequence(a: seq<Event>, b: seq<Event>)
    requires Subsequence(a, b)
    ensures |a| <= |b|
    decreases b
  {
    if a != [] {
      if Subsequence(a, b[..|b| - 1]) {
        ShorterSubsequence(a, b[..|b| - 1]);
      } else {
        ShorterSubsequence(a[..|a| - 1], b[..|b| - 1]);
      }
    }
  }
}
