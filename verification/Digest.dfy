/**
  The collapse buffer: alerts wait briefly so that related ones leave as one mail. Map
  iteration order is arbitrary throughout.
*/
module Digest {
  import opened Base
  import opened Model

  const DIGEST_THRESHOLD := 3
  const GLOBAL_DIGEST_THRESHOLD := 10
  const MAX_HOLD := 120

  datatype Kind = DownKind | RecoveryKind

  datatype Alert = Alert(eff: Effective, kind: Kind, detail: string, incident: Option<int>, queuedAt: int)

  /** Alerts that could collapse together: one group, one direction. Group 0 is "ungrouped". */
  datatype BatchKey = BatchKey(group: int, kind: Kind)

  function KeyOf(a: Alert): BatchKey { BatchKey(a.eff.group.GetOr(0), a.kind) }

  type Batches = map<BatchKey, seq<Alert>>

  datatype Message =
    | Individual(alert: Alert)
    | GroupDigest(kind: Kind, group: int, members: seq<Alert>, recipients: seq<string>)
    | GlobalDown(members: seq<Alert>, recipients: seq<string>)
  {
    /** The alerts this one mail stands for. */
    function Alerts(): seq<Alert> {
      match this
      case Individual(a) => [a]
      case GroupDigest(_, _, members, _) => members
      case GlobalDown(members, _) => members
    }
  }

  // ---- Recipients ------------------------------------------------------------

  ghost predicate Reaches(recipients: seq<string>, batch: seq<Alert>) {
    forall r :: r in recipients <==> exists k :: 0 <= k < |batch| && r in batch[k].eff.recipients
  }

  ghost predicate NoneTwice(recipients: seq<string>) {
    forall j, k :: 0 <= j < k < |recipients| ==> recipients[j] != recipients[k]
  }

  /** Everyone who would have received one of the mails the digest replaces, once each. */
  method DigestRecipients(batch: seq<Alert>) returns (out: seq<string>)
    ensures Reaches(out, batch) && NoneTwice(out)
  {
    out := [];
    for n := 0 to |batch|
      invariant NoneTwice(out)
      invariant forall r :: r in out <==> exists k :: 0 <= k < n && r in batch[k].eff.recipients
    {
      var list := batch[n].eff.recipients;
      ghost var before := out;
      for m := 0 to |list|
        invariant NoneTwice(out)
        invariant forall r :: r in out <==> r in before || r in list[..m]
      {
        if list[m] !in out {
          out := out + [list[m]];
        }
      }
    }
  }

  // ---- What a mail may stand for ----------------------------------------------

  ghost predicate AllOf(batch: seq<Alert>, key: BatchKey) {
    forall k :: 0 <= k < |batch| ==> KeyOf(batch[k]) == key
  }

  ghost predicate WellMade(m: Message) {
    match m
    case Individual(_) => true
    case GroupDigest(kind, group, members, recipients) =>
      group != 0 && |members| >= DIGEST_THRESHOLD && AllOf(members, BatchKey(group, kind)) && Reaches(recipients, members)
    case GlobalDown(members, recipients) =>
      && |members| >= GLOBAL_DIGEST_THRESHOLD
      && (forall k :: 0 <= k < |members| ==> members[k].kind == DownKind)
      && Reaches(recipients, members)
  }

  // ---- How many mails a batch leaves as ----------------------------------------

  /** Three or more of a real group leave as one digest of them all; any other batch one mail an alert. */
  ghost predicate LeftAs(ms: seq<Message>, key: BatchKey, batch: seq<Alert>) {
    if key.group != 0 && |batch| >= 3 then
      && |ms| == 1 && ms[0].GroupDigest? && ms[0].group == key.group && ms[0].kind == key.kind
      && ms[0].members == batch && Reaches(ms[0].recipients, batch) && NoneTwice(ms[0].recipients)
    else
      |ms| == |batch| && forall k :: 0 <= k < |ms| ==> ms[k] == Individual(batch[k])
  }

  predicate Concerns(m: Message, key: BatchKey) {
    match m
    case Individual(a) => a.eff.group.GetOr(0) == key.group && a.kind == key.kind
    case GroupDigest(kind, group, _, _) => group == key.group && kind == key.kind
    case GlobalDown(_, _) => false
  }

  /** The mails about one group and direction, in order. */
  function MailsOf(ms: seq<Message>, key: BatchKey): seq<Message> {
    if ms == [] then [] else (if Concerns(ms[0], key) then [ms[0]] else []) + MailsOf(ms[1..], key)
  }

  lemma {:induction false} MailsOfConcat(a: seq<Message>, b: seq<Message>, key: BatchKey)
    ensures MailsOf(a + b, key) == MailsOf(a, key) + MailsOf(b, key)
  {
    if a == [] {
      assert a + b == b;
    } else {
      assert (a + b)[1..] == a[1..] + b;
      MailsOfConcat(a[1..], b, key);
    }
  }

  lemma {:induction false} MailsOfUniform(ms: seq<Message>, key: BatchKey, wanted: BatchKey)
    requires forall k :: 0 <= k < |ms| ==> Concerns(ms[k], key)
    ensures MailsOf(ms, wanted) == if wanted == key then ms else []
  {
    if ms != [] {
      MailsOfUniform(ms[1..], key, wanted);
    }
  }

  ghost predicate LeftAt(ms: seq<Message>, was: Batches, gone: set<BatchKey>, key: BatchKey) {
    LeftAs(MailsOf(ms, key), key, if key in gone then Parked(was, key) else [])
  }

  /** `ms` is what the batches in `gone` left as, and nothing else. */
  ghost predicate Left(ms: seq<Message>, was: Batches, gone: set<BatchKey>) {
    (forall k :: 0 <= k < |ms| ==> !ms[k].GlobalDown?) && forall key :: LeftAt(ms, was, gone, key)
  }

  lemma NothingHasLeft(was: Batches)
    ensures Left([], was, {})
  {
    forall key ensures LeftAt([], was, {}, key) {}
  }

  lemma LeftMore(ms: seq<Message>, more: seq<Message>, was: Batches, gone: set<BatchKey>, key: BatchKey)
    requires Left(ms, was, gone) && key in was && key !in gone && AllOf(was[key], key) && LeftAs(more, key, was[key])
    ensures Left(ms + more, was, gone + {key})
  {
    hide MailsOf, Reaches;
    forall k
      ensures LeftAt(ms + more, was, gone + {key}, k)
    {
      assert LeftAt(ms, was, gone, k);
      MailsOfConcat(ms, more, k);
      MailsOfUniform(more, key, k);
    }
  }

  /** One mail names every outage that waited; the recoveries that waited leave group by group. */
  ghost predicate LeftGlobally(ms: seq<Message>, was: Batches) {
    && |ms| > 0 && ms[0].GlobalDown?
    && Gathered(ms[0].members, was, was.Keys, DownKind)
    && Reaches(ms[0].recipients, ms[0].members) && NoneTwice(ms[0].recipients)
    && Left(ms[1..], was, set k | k in was && k.kind == RecoveryKind)
  }

  /** The mail's members are the DOWN alerts that waited, each as often as it waited. */
  lemma GlobalMailNamesEachOutage(ms: seq<Message>, was: Batches, a: Alert)
    requires LeftGlobally(ms, was)
    ensures multiset(ms[0].members)[a] == if a.kind == DownKind then multiset(Parked(was, KeyOf(a)))[a] else 0
  {
    assert GatheredAt(ms[0].members, was, was.Keys, DownKind, KeyOf(a));
    CountOfKey(ms[0].members, a);
  }

  // ---- Conservation ----------------------------------------------------------

  function Flatten(ms: seq<Message>): seq<Alert> {
    if ms == [] then [] else ms[0].Alerts() + Flatten(ms[1..])
  }

  lemma {:induction false} FlattenConcat(a: seq<Message>, b: seq<Message>)
    ensures Flatten(a + b) == Flatten(a) + Flatten(b)
  {
    if a == [] {
      assert a + b == b;
    } else {
      assert (a + b)[1..] == a[1..] + b;
      FlattenConcat(a[1..], b);
    }
  }

  /** The alerts of one key, in order. */
  function OfKey(s: seq<Alert>, key: BatchKey): seq<Alert> {
    if s == [] then [] else (if KeyOf(s[0]) == key then [s[0]] else []) + OfKey(s[1..], key)
  }

  lemma {:induction false} OfKeyConcat(a: seq<Alert>, b: seq<Alert>, key: BatchKey)
    ensures OfKey(a + b, key) == OfKey(a, key) + OfKey(b, key)
  {
    if a == [] {
      assert a + b == b;
    } else {
      assert (a + b)[1..] == a[1..] + b;
      OfKeyConcat(a[1..], b, key);
    }
  }

  lemma {:induction false} OfKeyUniform(s: seq<Alert>, key: BatchKey, wanted: BatchKey)
    requires AllOf(s, key)
    ensures OfKey(s, wanted) == if wanted == key then s else []
  {
    if s != [] {
      OfKeyUniform(s[1..], key, wanted);
    }
  }

  function Parked(batches: Batches, key: BatchKey): seq<Alert> {
    if key in batches then batches[key] else []
  }

  ghost predicate ConservedAt(queued: seq<Alert>, sent: seq<Message>, batches: Batches, key: BatchKey) {
    multiset(OfKey(queued, key)) == multiset(OfKey(Flatten(sent), key)) + multiset(Parked(batches, key))
  }

  /** Key by key: what was queued is what was handed to the sender plus what still waits. */
  ghost predicate Conserved(queued: seq<Alert>, sent: seq<Message>, batches: Batches) {
    forall key :: ConservedAt(queued, sent, batches, key)
  }

  lemma ParkedAt(queued: seq<Alert>, sent: seq<Message>, batches: Batches, a: Alert, key: BatchKey)
    requires ConservedAt(queued, sent, batches, key)
    ensures ConservedAt(queued + [a], sent, batches[KeyOf(a) := Parked(batches, KeyOf(a)) + [a]], key)
  {
    OfKeyConcat(queued, [a], key);
    OfKeyUniform([a], KeyOf(a), key);
  }

  lemma QueuedAndParked(queued: seq<Alert>, sent: seq<Message>, batches: Batches, a: Alert)
    requires Conserved(queued, sent, batches)
    ensures Conserved(queued + [a], sent, batches[KeyOf(a) := Parked(batches, KeyOf(a)) + [a]])
  {
    var after := batches[KeyOf(a) := Parked(batches, KeyOf(a)) + [a]];
    forall key
      ensures ConservedAt(queued + [a], sent, after, key)
    {
      assert ConservedAt(queued, sent, batches, key);
      ParkedAt(queued, sent, batches, a, key);
    }
  }

  lemma QueuedAndSent(queued: seq<Alert>, sent: seq<Message>, batches: Batches, a: Alert, after: seq<Message>)
    requires Conserved(queued, sent, batches) && Flatten(after) == Flatten(sent) + [a]
    ensures Conserved(queued + [a], after, batches)
  {
    forall key
      ensures ConservedAt(queued + [a], after, batches, key)
    {
      assert ConservedAt(queued, sent, batches, key);
      OfKeyConcat(queued, [a], key);
      OfKeyConcat(Flatten(sent), [a], key);
    }
  }

  lemma BatchReleased(queued: seq<Alert>, sent: seq<Message>, batches: Batches, key: BatchKey, after: seq<Message>)
    requires Conserved(queued, sent, batches) && key in batches && AllOf(batches[key], key)
    requires Flatten(after) == Flatten(sent) + batches[key]
    ensures Conserved(queued, after, batches - {key})
  {
    hide OfKey, AllOf, Flatten;
    forall k
      ensures ConservedAt(queued, after, batches - {key}, k)
    {
      assert ConservedAt(queued, sent, batches, k);
      OfKeyConcat(Flatten(sent), batches[key], k);
      OfKeyUniform(batches[key], key, k);
    }
  }

  ghost predicate GatheredAt(taken: seq<Alert>, batches: Batches, gone: set<BatchKey>, kind: Kind, key: BatchKey) {
    OfKey(taken, key) == if key in gone && key.kind == kind then Parked(batches, key) else []
  }

  /** `taken` holds, for each key of one direction in `gone`, exactly its batch. */
  ghost predicate Gathered(taken: seq<Alert>, batches: Batches, gone: set<BatchKey>, kind: Kind) {
    && (forall k :: 0 <= k < |taken| ==> taken[k].kind == kind)
    && (forall key :: GatheredAt(taken, batches, gone, kind, key))
  }

  lemma GatherMore(taken: seq<Alert>, batches: Batches, gone: set<BatchKey>, kind: Kind, key: BatchKey)
    requires Gathered(taken, batches, gone, kind) && key in batches && key !in gone && AllOf(batches[key], key)
    ensures Gathered(if key.kind == kind then taken + batches[key] else taken, batches, gone + {key}, kind)
  {
    hide OfKey;
    var more := if key.kind == kind then taken + batches[key] else taken;
    forall k
      ensures GatheredAt(more, batches, gone + {key}, kind, k)
    {
      assert GatheredAt(taken, batches, gone, kind, k);
      OfKeyConcat(taken, batches[key], k);
      OfKeyUniform(batches[key], key, k);
    }
  }

  lemma {:induction false} CountOfKey(s: seq<Alert>, a: Alert)
    ensures multiset(OfKey(s, KeyOf(a)))[a] == multiset(s)[a]
  {
    if s != [] {
      assert s == [s[0]] + s[1..];
      CountOfKey(s[1..], a);
    }
  }

  /** So every alert is counted exactly once: in one mail, or waiting in the batch of its own key. */
  lemma EachAlertOnce(queued: seq<Alert>, sent: seq<Message>, batches: Batches, a: Alert)
    requires Conserved(queued, sent, batches)
    requires forall key :: key in batches ==> AllOf(batches[key], key)
    ensures multiset(queued)[a] == multiset(Flatten(sent))[a] + multiset(Parked(batches, KeyOf(a)))[a]
    ensures forall key :: key in batches && key != KeyOf(a) ==> a !in batches[key]
  {
    assert ConservedAt(queued, sent, batches, KeyOf(a));
    CountOfKey(queued, a);
    CountOfKey(Flatten(sent), a);
  }

  // ---- Waiting ---------------------------------------------------------------

  predicate Due(batch: seq<Alert>, now: int, window: int) {
    batch != [] && (now - batch[|batch| - 1].queuedAt >= window || now - batch[0].queuedAt >= MAX_HOLD)
  }

  /**
    A batch keeps waiting while its newest alert is younger than the window, none is 120 seconds
    old, and somebody of its group is not in it.
  */
  ghost predicate Waits(batch: seq<Alert>, group: int, now: int, window: int, members: map<int, nat>) {
    && (exists k :: 0 <= k < |batch| && now - batch[k].queuedAt < window)
    && (forall k :: 0 <= k < |batch| ==> now - batch[k].queuedAt < 120)
    && (group != 0 && group in members && members[group] != 0 ==> |batch| < members[group])
  }

  predicate NotAfter(a: Alert, b: Alert) { a.queuedAt <= b.queuedAt }

  ghost predicate QueuedInOrder(batch: seq<Alert>) {
    forall j, k {:trigger NotAfter(batch[j], batch[k])} :: 0 <= j < k < |batch| ==> NotAfter(batch[j], batch[k])
  }

  /** Nothing that is left after a flush has waited the maximum, and the newest has not waited a window. */
  lemma WaitIsBounded(batch: seq<Alert>, now: int, window: int)
    requires QueuedInOrder(batch) && batch != []
    ensures Due(batch, now, window) <==>
      (exists k :: 0 <= k < |batch| && now - batch[k].queuedAt >= MAX_HOLD)
      || (forall k :: 0 <= k < |batch| ==> now - batch[k].queuedAt >= window)
  {
    forall k | 0 <= k < |batch|
      ensures batch[0].queuedAt <= batch[k].queuedAt <= batch[|batch| - 1].queuedAt
    {
      assert k > 0 ==> NotAfter(batch[0], batch[k]);
      assert k < |batch| - 1 ==> NotAfter(batch[k], batch[|batch| - 1]);
    }
  }

  /** Every member of the group is already waiting, so no more company can come. */
  predicate Complete(key: BatchKey, batch: seq<Alert>, members: map<int, nat>) {
    key.group != 0 && |batch| >= GroupSize(members, key.group, |batch| + 1)
  }

  function GroupSize(members: map<int, nat>, group: int, fallback: nat): nat {
    if group in members && members[group] != 0 then members[group] else fallback
  }

  lemma WaitsAreShort(batch: seq<Alert>, group: int, now: int, window: int, members: map<int, nat>)
    requires Waits(batch, group, now, window, members)
    ensures forall k :: 0 <= k < |batch| ==> now - batch[k].queuedAt < 120
  {
  }

  /** The two clocks and the group's size, as the flush tests them. */
  lemma WaitsIff(batch: seq<Alert>, key: BatchKey, now: int, window: int, members: map<int, nat>)
    requires QueuedInOrder(batch) && batch != []
    ensures Waits(batch, key.group, now, window, members)
      <==> !Due(batch, now, window) && !Complete(key, batch, members)
  {
    WaitIsBounded(batch, now, window);
  }

  // ---- Counting --------------------------------------------------------------

  ghost function Count(batches: Batches, keys: set<BatchKey>): nat
    requires keys <= batches.Keys
  {
    if keys == {} then 0
    else
      var k :| k in keys;
      |batches[k]| + Count(batches, keys - {k})
  }

  lemma {:induction false} CountAny(batches: Batches, keys: set<BatchKey>, k: BatchKey)
    requires keys <= batches.Keys && k in keys
    ensures Count(batches, keys) == |batches[k]| + Count(batches, keys - {k})
  {
    var c :| c in keys && Count(batches, keys) == |batches[c]| + Count(batches, keys - {c});
    if c != k {
      CountAny(batches, keys - {c}, k);
      CountAny(batches, keys - {k}, c);
      assert keys - {c} - {k} == keys - {k} - {c};
    }
  }

  ghost function DownKeys(batches: Batches): set<BatchKey> {
    set k | k in batches && k.kind == DownKind
  }

  ghost function DownCount(batches: Batches): nat { Count(batches, DownKeys(batches)) }

  lemma {:induction false} CountSame(a: Batches, b: Batches, keys: set<BatchKey>)
    requires keys <= a.Keys && keys <= b.Keys && forall k :: k in keys ==> |a[k]| == |b[k]|
    ensures Count(a, keys) == Count(b, keys)
  {
    if keys != {} {
      var k :| k in keys;
      CountAny(a, keys, k);
      CountAny(b, keys, k);
      CountSame(a, b, keys - {k});
    }
  }

  /** The outages waiting: none at first, one more for each DOWN alert parked, a batch fewer when one leaves. */
  lemma DownCountFollows(batches: Batches, a: Alert, key: BatchKey)
    ensures DownCount(map[]) == 0
    ensures DownCount(batches[KeyOf(a) := Parked(batches, KeyOf(a)) + [a]])
         == DownCount(batches) + if a.kind == DownKind then 1 else 0
    ensures key in batches ==>
      DownCount(batches - {key}) == DownCount(batches) - if key.kind == DownKind then |batches[key]| else 0
  {
    DownCountParked(batches, a);
    if key in batches {
      assert DownKeys(batches - {key}) == DownKeys(batches) - {key};
      CountSame(batches - {key}, batches, DownKeys(batches) - {key});
      if key.kind == DownKind {
        CountAny(batches, DownKeys(batches), key);
      } else {
        assert DownKeys(batches) - {key} == DownKeys(batches);
      }
    }
  }

  lemma DownCountParked(batches: Batches, a: Alert)
    ensures DownCount(batches[KeyOf(a) := Parked(batches, KeyOf(a)) + [a]])
         == DownCount(batches) + if a.kind == DownKind then 1 else 0
  {
    var key := KeyOf(a);
    var after := batches[key := Parked(batches, key) + [a]];
    var others := DownKeys(batches) - {key};
    assert DownKeys(after) - {key} == others;
    CountSame(after, batches, others);
    if a.kind == DownKind {
      CountAny(after, DownKeys(after), key);
      if key in batches {
        CountAny(batches, DownKeys(batches), key);
      } else {
        assert others == DownKeys(batches);
      }
    } else {
      assert others == DownKeys(batches) == DownKeys(after);
    }
  }

  lemma CountMore(batches: Batches, gone: set<BatchKey>, key: BatchKey)
    requires key in batches && key !in gone
    ensures Count(batches, (gone + {key}) * DownKeys(batches))
         == Count(batches, gone * DownKeys(batches)) + if key.kind == DownKind then |batches[key]| else 0
  {
    if key.kind == DownKind {
      CountAny(batches, (gone + {key}) * DownKeys(batches), key);
      assert (gone + {key}) * DownKeys(batches) - {key} == gone * DownKeys(batches);
    } else {
      assert (gone + {key}) * DownKeys(batches) == gone * DownKeys(batches);
    }
  }
}
