/** The collapse buffer and its flushes, as the program runs them. */
module Collapser {
  import opened Base
  import opened Model
  import opened Digest

  class AlertBuffer {
    var batches: Batches
    var sent: seq<Message>        // mails handed to `send`, oldest first
    ghost var queued: seq<Alert>  // every alert ever queued

    constructor ()
      ensures Valid() && queued == [] && sent == []
    {
      batches, sent, queued := map[], [], [];
    }

    ghost predicate Valid()
      reads this
    {
      && Conserved(queued, sent, batches)
      && (forall key :: key in batches ==>
            batches[key] != [] && AllOf(batches[key], key) && QueuedInOrder(batches[key]))
      && (forall k :: 0 <= k < |sent| ==> WellMade(sent[k]))
    }

    /** Hands some mails over. */
    method Send(m: Message)
      modifies this`sent
      ensures sent == old(sent) + [m]
    {
      sent := sent + [m];
    }

    method SendIndividually(batch: seq<Alert>)
      modifies this`sent
      ensures |sent| == |old(sent)| + |batch| && old(sent) <= sent
      ensures Flatten(sent) == Flatten(old(sent)) + batch
      ensures forall k :: |old(sent)| <= k < |sent| ==> sent[k] == Individual(batch[k - |old(sent)|])
    {
      for n := 0 to |batch|
        invariant |sent| == |old(sent)| + n && old(sent) <= sent
        invariant Flatten(sent) == Flatten(old(sent)) + batch[..n]
        invariant forall k :: |old(sent)| <= k < |sent| ==> sent[k] == Individual(batch[k - |old(sent)|])
      {
        FlattenConcat(sent, [Individual(batch[n])]);
        FlattenOne(Individual(batch[n]));
        assert batch[..n + 1] == batch[..n] + [batch[n]];
        Send(Individual(batch[n]));
      }
      assert batch[..|batch|] == batch;
    }

    /** One batch leaves: as a digest when it is a real group with enough members, else one by one. */
    method SendBatch(key: BatchKey, batch: seq<Alert>)
      requires AllOf(batch, key)
      modifies this`sent
      ensures old(sent) <= sent && Flatten(sent) == Flatten(old(sent)) + batch
      ensures forall k :: |old(sent)| <= k < |sent| ==> WellMade(sent[k])
      ensures LeftAs(sent[|old(sent)|..], key, batch)
    {
      if key.group == 0 || |batch| < DIGEST_THRESHOLD {
        SendIndividually(batch);
      } else {
        var recipients := DigestRecipients(batch);
        var m := GroupDigest(key.kind, key.group, batch, recipients);
        FlattenConcat(sent, [m]);
        FlattenOne(m);
        Send(m);
      }
    }

    /** Parks an alert, or sends it at once when collapsing is off. */
    method QueueAlert(a: Alert, window: int)
      requires Valid()
      requires forall key :: key in batches ==> batches[key][|batches[key]| - 1].queuedAt <= a.queuedAt
      modifies this
      ensures Valid() && queued == old(queued) + [a]
      ensures window <= 0 ==> sent == old(sent) + [Individual(a)] && batches == old(batches)
      ensures window > 0 ==>
        var key := BatchKey(a.eff.group.GetOr(0), a.kind);
        sent == old(sent) && batches == old(batches)[key := Parked(old(batches), key) + [a]]
    {
      hide Flatten, OfKey, Conserved, Reaches;
      var key := KeyOf(a);
      if window <= 0 {
        FlattenConcat(sent, [Individual(a)]);
        FlattenOne(Individual(a));
        QueuedAndSent(queued, sent, batches, a, sent + [Individual(a)]);
        Send(Individual(a));
      } else {
        QueuedAndParked(queued, sent, batches, a);
        Append(Parked(batches, key), a);
        batches := batches[key := Parked(batches, key) + [a]];
      }
      queued := queued + [a];
    }

    /** Moves one batch from the buffer to the outgoing mail. */
    method Release(key: BatchKey)
      requires Valid() && key in batches
      modifies this`batches, this`sent
      ensures Valid() && old(sent) <= sent
      ensures batches == old(batches) - {key}
      ensures Flatten(sent) == Flatten(old(sent)) + old(batches)[key]
      ensures LeftAs(sent[|old(sent)|..], key, old(batches)[key])
    {
      var batch := batches[key];
      SendBatch(key, batch);
      BatchReleased(queued, old(sent), batches, key, sent);
      batches := batches - {key};
    }

    method PendingDown() returns (n: nat)
      ensures n == DownCount(batches)
    {
      n := 0;
      var left := set k | k in batches && k.kind == DownKind;
      assert left == DownKeys(batches);
      while left != {}
        invariant left <= DownKeys(batches) && n + Count(batches, left) == Count(batches, DownKeys(batches))
        decreases left
      {
        var k :| k in left;
        CountAny(batches, left, k);
        n := n + |batches[k]|;
        left := left - {k};
      }
    }

    /** Sends what has waited long enough: `members` gives a group's size, 0 when unknown. */
    method FlushAlerts(now: int, force: bool, window: int, members: map<int, nat>)
      requires Valid()
      modifies this`batches, this`sent
      ensures Valid() && old(sent) <= sent
      ensures forall key :: key in batches ==> key in old(batches) && batches[key] == old(batches)[key]
      ensures DownCount(old(batches)) >= 10 ==> batches == map[] && LeftGlobally(sent[|old(sent)|..], old(batches))
      ensures DownCount(old(batches)) < 10 ==>
        && Left(sent[|old(sent)|..], old(batches), old(batches).Keys - batches.Keys)
        && forall key :: key in old(batches) ==>
          (key in batches <==> !force && Waits(old(batches)[key], key.group, now, window, members))
      ensures forall key, k :: key in batches && 0 <= k < |batches[key]| ==> now - batches[key][k].queuedAt < 120
    {
      hide Conserved, WellMade, AllOf, QueuedInOrder, Due, Complete, LeftAs, LeftGlobally, Left, Waits, Flatten;
      NothingHasLeft(batches);
      if batches == map[] {
        assert DownKeys(batches) == {} && DownCount(batches) == 0;
        assert sent[|sent|..] == [] && batches.Keys - batches.Keys == {};
        return;
      }
      var downCount := PendingDown();
      if downCount >= GLOBAL_DIGEST_THRESHOLD {
        FlushGlobal();
        return;
      }
      var left := batches.Keys;
      assert sent[|sent|..] == [] && batches.Keys - batches.Keys == {};
      while left != {}
        invariant Valid() && old(sent) <= sent && left <= batches.Keys
        invariant forall key :: key in batches ==> key in old(batches) && batches[key] == old(batches)[key]
        invariant Left(sent[|old(sent)|..], old(batches), old(batches).Keys - batches.Keys)
        invariant forall key :: key in old(batches) && key !in left ==>
          (key in batches <==> !force && Waits(old(batches)[key], key.group, now, window, members))
        decreases left
      {
        var key :| key in left;
        left := left - {key};
        WaitsIff(batches[key], key, now, window, members);
        if force || Complete(key, batches[key], members) || Due(batches[key], now, window) {
          ghost var before, gone := sent, old(batches).Keys - batches.Keys;
          Release(key);
          LeftMore(before[|old(sent)|..], sent[|before|..], old(batches), gone, key);
          assert sent[|old(sent)|..] == before[|old(sent)|..] + sent[|before|..];
          assert old(batches).Keys - batches.Keys == gone + {key};
        }
      }
      forall key, k | key in batches && 0 <= k < |batches[key]|
        ensures now - batches[key][k].queuedAt < 120
      {
        WaitsAreShort(batches[key], key.group, now, window, members);
      }
    }

    /** Empties the buffer into one list per direction. */
    method TakeAll() returns (down: seq<Alert>, recovered: seq<Alert>)
      requires forall key :: key in batches ==> AllOf(batches[key], key)
      modifies this`batches
      ensures batches == map[]
      ensures Gathered(down, old(batches), old(batches).Keys, DownKind)
      ensures Gathered(recovered, old(batches), old(batches).Keys, RecoveryKind)
      ensures |down| == DownCount(old(batches))
    {
      ghost var before := batches;
      down, recovered := [], [];
      var left := batches.Keys;
      ghost var gone: set<BatchKey> := {};
      while left != {}
        invariant left <= before.Keys && batches.Keys == left && gone == before.Keys - left
        invariant forall key :: key in left ==> batches[key] == before[key]
        invariant Gathered(down, before, gone, DownKind) && Gathered(recovered, before, gone, RecoveryKind)
        invariant |down| == Count(before, gone * DownKeys(before))
        decreases left
      {
        var key :| key in left;
        GatherMore(down, before, gone, DownKind, key);
        GatherMore(recovered, before, gone, RecoveryKind, key);
        CountMore(before, gone, key);
        if key.kind == DownKind {
          down := down + batches[key];
        } else {
          recovered := recovered + batches[key];
        }
        batches := batches - {key};
        left := left - {key};
        gone := gone + {key};
      }
      assert gone == before.Keys;
      assert gone * DownKeys(before) == DownKeys(before);
    }

    method SendGlobalDown(down: seq<Alert>)
      requires |down| >= GLOBAL_DIGEST_THRESHOLD && forall k :: 0 <= k < |down| ==> down[k].kind == DownKind
      modifies this`sent
      ensures |sent| == |old(sent)| + 1 && old(sent) <= sent && WellMade(sent[|old(sent)|])
      ensures var m := sent[|old(sent)|];
        m.GlobalDown? && m.members == down && Reaches(m.recipients, down) && NoneTwice(m.recipients)
      ensures Flatten(sent) == Flatten(old(sent)) + down
    {
      var recipients := DigestRecipients(down);
      var m := GlobalDown(down, recipients);
      FlattenConcat(sent, [m]);
      FlattenOne(m);
      Send(m);
    }

    /** Ten outages at once: one mail for all of them, and recoveries per group. */
    method FlushGlobal()
      requires Valid() && DownCount(batches) >= GLOBAL_DIGEST_THRESHOLD
      modifies this`batches, this`sent
      ensures Valid() && old(sent) <= sent && batches == map[]
      ensures LeftGlobally(sent[|old(sent)|..], old(batches))
    {
      hide WellMade, Reaches, NoneTwice, AllOf, QueuedInOrder, OfKey, Flatten, Left, AllLeft, Grown;
      var down, recovered := TakeAll();
      SendGlobalDown(down);
      ghost var mid := sent;
      SendRecoveries(recovered);
      RecoveriesLeft(sent[|mid|..], old(batches), recovered);
      assert sent[|old(sent)|..][0] == mid[|old(sent)|] && sent[|old(sent)|..][1..] == sent[|mid|..];
      AllReleased(queued, old(sent), old(batches), down, recovered, mid, sent);
      forall k | 0 <= k < |sent| ensures WellMade(sent[k]) {
        assert k < |old(sent)| ==> sent[k] == old(sent)[k];
        assert k == |old(sent)| ==> sent[k] == mid[k];
      }
    }

    /** Recoveries of one pass, regrouped by group. */
    method SendRecoveries(recovered: seq<Alert>)
      requires forall k :: 0 <= k < |recovered| ==> recovered[k].kind == RecoveryKind
      modifies this`sent
      ensures old(sent) <= sent
      ensures forall k :: |old(sent)| <= k < |sent| ==> WellMade(sent[k])
      ensures forall key :: Grown(old(sent), sent, recovered, key)
      ensures AllLeft(sent[|old(sent)|..], recovered)
    {
      hide WellMade, AllOf, LeftAs, Left, Grown, OfKey, Parked, MailsOf, Flatten;
      var byGroup := Regroup(recovered);
      var left := byGroup.Keys;
      NothingGrown(sent, byGroup, recovered);
      NothingHasLeft(byGroup);
      assert sent[|sent|..] == [] && byGroup.Keys - left == {};
      while left != {}
        invariant left <= byGroup.Keys && old(sent) <= sent
        invariant forall k :: |old(sent)| <= k < |sent| ==> WellMade(sent[k])
        invariant AllGrown(old(sent), sent, recovered, left)
        invariant Left(sent[|old(sent)|..], byGroup, byGroup.Keys - left)
        decreases left
      {
        var key :| key in left;
        ghost var was := sent;
        assert GroupedAt(byGroup, recovered, key);
        GroupIsUniform(byGroup, recovered, key);
        SendBatch(key, byGroup[key]);
        GrownMore(old(sent), was, sent, recovered, left, key, byGroup[key]);
        LeftMore(was[|old(sent)|..], sent[|was|..], byGroup, byGroup.Keys - left, key);
        assert sent[|old(sent)|..] == was[|old(sent)|..] + sent[|was|..];
        assert byGroup.Keys - left + {key} == byGroup.Keys - (left - {key});
        left := left - {key};
      }
      assert byGroup.Keys - left == byGroup.Keys;
      AllHaveLeft(sent[|old(sent)|..], byGroup, recovered);
      forall key ensures Grown(old(sent), sent, recovered, key) {
        assert GrownAt(old(sent), sent, recovered, {}, key);
      }
    }
  }

  ghost predicate GrownAt(was: seq<Message>, now: seq<Message>, recovered: seq<Alert>, left: set<BatchKey>, key: BatchKey) {
    Grown(was, now, if key in left then [] else recovered, key)
  }

  /** The groups not in `left` were sent. */
  ghost predicate AllGrown(was: seq<Message>, now: seq<Message>, recovered: seq<Alert>, left: set<BatchKey>) {
    forall key :: GrownAt(was, now, recovered, left, key)
  }

  lemma NothingGrown(sent: seq<Message>, byGroup: Batches, recovered: seq<Alert>)
    requires Grouped(byGroup, recovered)
    ensures AllGrown(sent, sent, recovered, byGroup.Keys)
  {
    forall key ensures GrownAt(sent, sent, recovered, byGroup.Keys, key) {
      assert GroupedAt(byGroup, recovered, key);
    }
  }

  lemma GroupIsUniform(byGroup: Batches, recovered: seq<Alert>, key: BatchKey)
    requires GroupedAt(byGroup, recovered, key) && key in byGroup
    ensures byGroup[key] == OfKey(recovered, key) && AllOf(byGroup[key], key)
  {
  }

  lemma GrownMore(first: seq<Message>, was: seq<Message>, now: seq<Message>, recovered: seq<Alert>, left: set<BatchKey>,
                  key: BatchKey, batch: seq<Alert>)
    requires AllGrown(first, was, recovered, left) && key in left
    requires Flatten(now) == Flatten(was) + batch && AllOf(batch, key) && batch == OfKey(recovered, key)
    ensures AllGrown(first, now, recovered, left - {key})
  {
    hide Flatten, AllOf;
    forall k ensures GrownAt(first, now, recovered, left - {key}, k) {
      assert GrownAt(first, was, recovered, left, k);
      OfKeyConcat(Flatten(was), batch, k);
      OfKeyUniform(batch, key, k);
    }
  }

  lemma AllHaveLeft(ms: seq<Message>, byGroup: Batches, recovered: seq<Alert>)
    requires Left(ms, byGroup, byGroup.Keys) && Grouped(byGroup, recovered)
    ensures AllLeft(ms, recovered)
  {
    hide LeftAs, MailsOf;
    forall key ensures LeftAs(MailsOf(ms, key), key, OfKey(recovered, key)) {
      assert GroupedAt(byGroup, recovered, key) && LeftAt(ms, byGroup, byGroup.Keys, key);
    }
  }

  /** These mails are what the recoveries left as, each group for itself. */
  ghost predicate AllLeft(ms: seq<Message>, recovered: seq<Alert>) {
    && (forall k :: 0 <= k < |ms| ==> !ms[k].GlobalDown?)
    && forall key :: LeftAs(MailsOf(ms, key), key, OfKey(recovered, key))
  }

  lemma RecoveriesLeft(ms: seq<Message>, was: Batches, recovered: seq<Alert>)
    requires AllLeft(ms, recovered) && Gathered(recovered, was, was.Keys, RecoveryKind)
    ensures Left(ms, was, set k | k in was && k.kind == RecoveryKind)
  {
    var back := set k | k in was && k.kind == RecoveryKind;
    forall key ensures LeftAt(ms, was, back, key) {
      assert GatheredAt(recovered, was, was.Keys, RecoveryKind, key);
      assert LeftAs(MailsOf(ms, key), key, OfKey(recovered, key));
    }
  }

  /** The outgoing mail grew by the alerts `added` holds for one key. */
  ghost predicate Grown(was: seq<Message>, now: seq<Message>, added: seq<Alert>, key: BatchKey) {
    OfKey(Flatten(now), key) == OfKey(Flatten(was), key) + OfKey(added, key)
  }

  lemma AllReleased(queued: seq<Alert>, was: seq<Message>, batches: Batches, down: seq<Alert>, recovered: seq<Alert>,
                    mid: seq<Message>, now: seq<Message>)
    requires Conserved(queued, was, batches)
    requires Gathered(down, batches, batches.Keys, DownKind) && Gathered(recovered, batches, batches.Keys, RecoveryKind)
    requires Flatten(mid) == Flatten(was) + down && forall key :: Grown(mid, now, recovered, key)
    ensures Conserved(queued, now, map[])
  {
    forall key
      ensures ConservedAt(queued, now, map[], key)
    {
      assert ConservedAt(queued, was, batches, key) && Grown(mid, now, recovered, key);
      assert GatheredAt(down, batches, batches.Keys, DownKind, key);
      assert GatheredAt(recovered, batches, batches.Keys, RecoveryKind, key);
      ReleasedAt(queued, was, batches, down, recovered, mid, now, key);
    }
  }

  lemma ReleasedAt(queued: seq<Alert>, was: seq<Message>, batches: Batches, down: seq<Alert>, recovered: seq<Alert>,
                   mid: seq<Message>, now: seq<Message>, key: BatchKey)
    requires ConservedAt(queued, was, batches, key) && Grown(mid, now, recovered, key)
    requires Flatten(mid) == Flatten(was) + down
    requires OfKey(down, key) == if key.kind == DownKind then Parked(batches, key) else []
    requires OfKey(recovered, key) == if key.kind == RecoveryKind then Parked(batches, key) else []
    ensures ConservedAt(queued, now, map[], key)
  {
    var sent, parked := OfKey(Flatten(was), key), Parked(batches, key);
    OfKeyConcat(Flatten(was), down, key);
    MovesAcross(OfKey(queued, key), sent, parked, OfKey(Flatten(now), key), key.kind == DownKind);
  }

  /** Taking a batch along either direction moves it from the waiting to the sent. */
  lemma MovesAcross(queued: seq<Alert>, sent: seq<Alert>, parked: seq<Alert>, now: seq<Alert>, down: bool)
    requires multiset(queued) == multiset(sent) + multiset(parked)
    requires now == if down then sent + parked + [] else sent + [] + parked
    ensures multiset(queued) == multiset(now)
  {
    assert now == sent + parked;
  }

  method Regroup(recovered: seq<Alert>) returns (byGroup: Batches)
    ensures Grouped(byGroup, recovered)
  {
    byGroup := map[];
    for n := 0 to |recovered|
      invariant Grouped(byGroup, recovered[..n])
    {
      assert recovered[..n + 1] == recovered[..n] + [recovered[n]];
      GroupMore(byGroup, recovered[..n], recovered[n]);
      var key := KeyOf(recovered[n]);
      byGroup := byGroup[key := Parked(byGroup, key) + [recovered[n]]];
    }
    assert recovered[..|recovered|] == recovered;
  }

  ghost predicate GroupedAt(byGroup: Batches, s: seq<Alert>, key: BatchKey) {
    Parked(byGroup, key) == OfKey(s, key) && AllOf(Parked(byGroup, key), key)
  }

  ghost predicate Grouped(byGroup: Batches, s: seq<Alert>) {
    forall key :: GroupedAt(byGroup, s, key)
  }

  lemma GroupMore(byGroup: Batches, s: seq<Alert>, a: Alert)
    requires Grouped(byGroup, s)
    ensures Grouped(byGroup[KeyOf(a) := Parked(byGroup, KeyOf(a)) + [a]], s + [a])
  {
    var after := byGroup[KeyOf(a) := Parked(byGroup, KeyOf(a)) + [a]];
    forall key
      ensures GroupedAt(after, s + [a], key)
    {
      assert GroupedAt(byGroup, s, key);
      OfKeyConcat(s, [a], key);
      OfKeyUniform([a], KeyOf(a), key);
    }
  }

  lemma Append(batch: seq<Alert>, a: Alert)
    requires AllOf(batch, KeyOf(a)) && QueuedInOrder(batch)
    requires batch != [] ==> batch[|batch| - 1].queuedAt <= a.queuedAt
    ensures AllOf(batch + [a], KeyOf(a)) && QueuedInOrder(batch + [a])
  {
    var longer := batch + [a];
    forall j, k | 0 <= j < k < |longer|
      ensures NotAfter(longer[j], longer[k])
    {
      assert k < |batch| ==> NotAfter(batch[j], batch[k]);
      assert j < |batch| - 1 ==> NotAfter(batch[j], batch[|batch| - 1]);
    }
  }

  lemma FlattenOne(m: Message)
    ensures Flatten([m]) == m.Alerts()
  {
    assert [m][1..] == [];
  }
}
