/** Settings tiers and the reconciliation of probe loops with the effective set. */
module Scheduler {
  import opened Base
  import opened Model

  // ---- device ?? group ?? global default -----------------------------------------

  datatype Tier = Tier(interval: Option<int>, timeout: Option<int>, failure: Option<int>, recovery: Option<int>)

  datatype Device = Device(id: int, group: Option<int>, addr: string, tier: Tier, enabled: bool, notify: bool,
                           pausedUntil: Option<int>)

  /** `recipients` is the split list when the stored text is not blank. */
  datatype Group = Group(tier: Tier, notify: bool, recipients: Option<seq<string>>, pausedUntil: Option<int>)

  datatype Defaults = Defaults(interval: int, timeout: int, failure: int, recovery: int, recipients: seq<string>)

  function Pick(device: Option<int>, group: Option<int>, default: int): int {
    if device.Some? then device.value else group.GetOr(default)
  }

  const NO_TIER := Tier(None, None, None, None)

  function Resolve(d: Device, g: Option<Group>, def: Defaults): (e: Effective)
    ensures e.device == d.id
  {
    var t := if g.Some? then g.value.tier else NO_TIER;
    var own := d.pausedUntil;
    var pause := if g.Some? && g.value.pausedUntil.Some? && (own.None? || g.value.pausedUntil.value > own.value)
                 then g.value.pausedUntil else own;
    Effective(
      d.id, d.group, d.addr,
      Pick(d.tier.interval, t.interval, def.interval),
      Pick(d.tier.timeout, t.timeout, def.timeout),
      Pick(d.tier.failure, t.failure, def.failure),
      Pick(d.tier.recovery, t.recovery, def.recovery),
      d.notify && (g.None? || g.value.notify),
      if g.Some? && g.value.recipients.Some? then g.value.recipients.value else def.recipients,
      pause)
  }

  /** A maintenance window never shortens a device's own pause, nor the other way round. */
  lemma PausedByEither(d: Device, g: Option<Group>, def: Defaults, now: int)
    ensures Resolve(d, g, def).Paused(now)
      <==> (d.pausedUntil.Some? && now < d.pausedUntil.value)
           || (g.Some? && g.value.pausedUntil.Some? && now < g.value.pausedUntil.value)
  {
  }

  /** `value` comes from the nearest tier that sets it. */
  predicate Nearest(value: int, device: Option<int>, g: Option<Group>, own: Group -> Option<int>, default: int) {
    && (device.Some? ==> value == device.value)
    && (device.None? && g.Some? && own(g.value).Some? ==> value == own(g.value).value)
    && (device.None? && (g.None? || own(g.value).None?) ==> value == default)
  }

  /** Each number, and the recipients, are settled by their nearest tier, and either tier can silence the device. */
  lemma NearestTierWins(d: Device, g: Option<Group>, def: Defaults)
    ensures var e := Resolve(d, g, def);
      && e.device == d.id && e.group == d.group && e.addr == d.addr
      && (g.Some? && g.value.recipients.Some? ==> e.recipients == g.value.recipients.value)
      && (g.None? || g.value.recipients.None? ==> e.recipients == def.recipients)
      && Nearest(e.interval, d.tier.interval, g, (x: Group) => x.tier.interval, def.interval)
      && Nearest(e.timeout, d.tier.timeout, g, (x: Group) => x.tier.timeout, def.timeout)
      && Nearest(e.failureThreshold, d.tier.failure, g, (x: Group) => x.tier.failure, def.failure)
      && Nearest(e.recoveryThreshold, d.tier.recovery, g, (x: Group) => x.tier.recovery, def.recovery)
      && (e.notify <==> d.notify && (g.Some? ==> g.value.notify))
  {
  }

  function GroupOf(groups: map<int, Group>, d: Device): Option<Group> {
    if d.group.Some? && d.group.value in groups then Some(groups[d.group.value]) else None
  }

  /** Every enabled device, resolved. */
  function LoadEffective(devices: seq<Device>, groups: map<int, Group>, def: Defaults): seq<Effective> {
    if devices == [] then []
    else
      var n := |devices| - 1;
      var earlier := LoadEffective(devices[..n], groups, def);
      if devices[n].enabled then earlier + [Resolve(devices[n], GroupOf(groups, devices[n]), def)] else earlier
  }

  // ---- Workers -------------------------------------------------------------------

  /** A probe loop that was started once; a cancelled one never probes again. */
  datatype Loop = Loop(device: Id, addr: string, interval: int, timeout: int, cancelled: bool)

  datatype Worker = Worker(eff: Effective, loop: int)

  /** The key of the device table. */
  datatype Id = Id(n: int)

  type Workers = map<Id, Worker>

  predicate Changed(a: Effective, b: Effective) {
    a.addr != b.addr || a.interval != b.interval || a.timeout != b.timeout
  }

  function Wanted(effs: seq<Effective>): map<Id, Effective> {
    if effs == [] then map[] else Wanted(effs[..|effs| - 1])[Id(effs[|effs| - 1].device) := effs[|effs| - 1]]
  }

  predicate Runs(wanted: map<Id, Effective>, d: Id, now: int) {
    d in wanted && !wanted[d].Paused(now)
  }

  function Stopping(workers: Workers, wanted: map<Id, Effective>, now: int): set<Id> {
    set d | d in workers && !Runs(wanted, d, now)
  }

  function Restarting(workers: Workers, wanted: map<Id, Effective>, now: int): set<Id> {
    set d | d in workers && Runs(wanted, d, now) && Changed(workers[d].eff, wanted[d])
  }

  function Starting(workers: Workers, wanted: map<Id, Effective>, now: int): set<Id> {
    set d | d in wanted && Runs(wanted, d, now) && d !in workers
  }

  /** What reconciliation does to a worker it keeps: a loop of its own age unless the timing changed. */
  predicate Tended(was: Worker, w: Worker, e: Effective, first: nat) {
    w.eff == e
    && if was.eff.addr == e.addr && was.eff.interval == e.interval && was.eff.timeout == e.timeout
       then w.loop == was.loop else w.loop >= first
  }

  /** Loops are only ever added and cancelled. */
  ghost predicate Extends(was: seq<Loop>, loops: seq<Loop>) {
    |was| <= |loops| && forall k :: 0 <= k < |was| ==> loops[k] == was[k] || loops[k] == was[k].(cancelled := true)
  }

  lemma ExtendsItself(a: seq<Loop>)
    ensures Extends(a, a)
  {
  }

  lemma ExtendsTwice(a: seq<Loop>, b: seq<Loop>, c: seq<Loop>)
    requires Extends(a, b) && Extends(b, c)
    ensures Extends(a, c)
  {
    forall k | 0 <= k < |a| ensures c[k] == a[k] || c[k] == a[k].(cancelled := true) {
      assert b[k] == a[k] || b[k] == a[k].(cancelled := true);
    }
  }

  class Scheduler {
    var workers: Workers
    var loops: seq<Loop>
    var stopped: bool

    constructor ()
      ensures Valid() && workers == map[] && !stopped
    {
      workers, loops, stopped := map[], [], false;
    }

    /** The loop a worker stands for is its own, running, and probes with the worker's settings. */
    predicate Serves(d: Id)
      requires d in workers
      reads this
    {
      var w := workers[d];
      && 0 <= w.loop < |loops|
      && Id(w.eff.device) == d
      && loops[w.loop] == Loop(d, w.eff.addr, w.eff.interval, w.eff.timeout, false)
    }

    /** Every running loop belongs to the worker of its device, so no device has two. */
    ghost predicate Valid()
      reads this
    {
      && (forall d :: d in workers ==> Serves(d))
      && (forall k :: 0 <= k < |loops| && !loops[k].cancelled ==>
            loops[k].device in workers && workers[loops[k].device].loop == k)
      && (stopped ==> workers == map[])
    }

    method Start(e: Effective)
      requires Valid() && Id(e.device) !in workers && !stopped
      modifies this`workers, this`loops
      ensures Valid() && workers == old(workers)[Id(e.device) := Worker(e, |old(loops)|)]
      ensures |loops| == |old(loops)| + 1 && old(loops) <= loops && Extends(old(loops), loops)
    {
      loops := loops + [Loop(Id(e.device), e.addr, e.interval, e.timeout, false)];
      workers := workers[Id(e.device) := Worker(e, |loops| - 1)];
      forall d | d in workers ensures Serves(d) {
        assert d != Id(e.device) ==> d in old(workers) && old(Serves(d));
      }
    }

    method Cancel(d: Id)
      requires Valid() && d in workers
      modifies this`workers, this`loops
      ensures Valid() && workers == old(workers) - {d}
      ensures |loops| == |old(loops)| && Extends(old(loops), loops)
    {
      assert Serves(d);
      loops := loops[workers[d].loop := loops[workers[d].loop].(cancelled := true)];
      workers := workers - {d};
      forall e | e in workers ensures Serves(e) {
        assert old(Serves(e));
      }
    }

    /** Keeps the loop but adopts fields that do not affect timing. */
    method Adopt(e: Effective)
      requires Valid() && Id(e.device) in workers && !Changed(workers[Id(e.device)].eff, e)
      modifies this`workers
      ensures Valid() && workers == old(workers)[Id(e.device) := Worker(e, old(workers)[Id(e.device)].loop)]
    {
      assert Serves(Id(e.device));
      workers := workers[Id(e.device) := workers[Id(e.device)].(eff := e)];
      forall d | d in workers ensures Serves(d) {
        assert d in old(workers) && old(Serves(d));
      }
    }

    /** Reconciles the running workers with the effective set, at one reading of the clock. */
    method Apply(effs: seq<Effective>, now: int) returns (started: nat, stops: nat, restarted: nat)
      requires Valid()
      modifies this`workers, this`loops
      ensures Valid()
      ensures stopped ==> (started, stops, restarted) == (0, 0, 0) && workers == old(workers) && loops == old(loops)
      ensures Extends(old(loops), loops)
      ensures !stopped ==> var wanted := Wanted(effs);
        && (forall d :: d in workers <==> Runs(wanted, d, now))
        && (forall d :: d in workers ==> workers[d].eff == wanted[d])
        && (forall d :: d in workers && d in old(workers) ==>
              Tended(old(workers)[d], workers[d], wanted[d], |old(loops)|))
        && started == |Starting(old(workers), wanted, now)|
        && stops == |Stopping(old(workers), wanted, now)|
        && restarted == |Restarting(old(workers), wanted, now)|
    {
      ExtendsItself(loops);
      if stopped {
        return 0, 0, 0;
      }
      var wanted := Wanted(effs);
      WantedByDevice(effs);
      stops, restarted := StopAndRestart(wanted, now);
      ghost var kept, cut := workers, loops;
      started := StartNew(wanted, now);
      ExtendsTwice(old(loops), cut, loops);
      assert Starting(kept, wanted, now) == Starting(old(workers), wanted, now);
    }

    /** One running worker: stopped, restarted, or left alone with its new settings. */
    method Settle(d: Id, wanted: map<Id, Effective>, now: int, ghost first: nat) returns (stop: bool, restart: bool)
      requires Valid() && !stopped && ByDevice(wanted) && d in workers && first <= |loops|
      modifies this`workers, this`loops
      ensures Valid()
      ensures stop <==> !Runs(wanted, d, now)
      ensures restart <==> Runs(wanted, d, now) && Changed(old(workers)[d].eff, wanted[d])
      ensures var was := old(workers)[d].eff;
        !stop ==> (restart <==> was.addr != wanted[d].addr || was.interval != wanted[d].interval || was.timeout != wanted[d].timeout)
      ensures forall e :: e != d ==> (e in workers <==> e in old(workers))
      ensures forall e :: e != d && e in workers ==> workers[e] == old(workers)[e]
      ensures d in workers <==> !stop
      ensures !stop ==> Tended(old(workers)[d], workers[d], wanted[d], first)
      ensures Extends(old(loops), loops) && |old(loops)| <= |loops|
    {
      stop, restart := false, false;
      if !Runs(wanted, d, now) {
        Cancel(d);
        stop := true;
      } else if Changed(workers[d].eff, wanted[d]) {
        Cancel(d);
        ghost var cut := loops;
        Start(wanted[d]);
        ExtendsTwice(old(loops), cut, loops);
        restart := true;
      } else {
        Adopt(wanted[d]);
      }
    }

    ghost predicate Settled(d: Id, was: Worker, first: nat, wanted: map<Id, Effective>, now: int)
      reads this
    {
      (d in workers <==> Runs(wanted, d, now)) && (d in workers ==> Tended(was, workers[d], wanted[d], first))
    }

    /** Stops what is gone or paused, restarts what changed, and lets the rest adopt its new settings. */
    method StopAndRestart(wanted: map<Id, Effective>, now: int) returns (stops: nat, restarted: nat)
      requires Valid() && !stopped && ByDevice(wanted)
      modifies this`workers, this`loops
      ensures Valid()
      ensures forall d :: d in workers <==> d in old(workers) && Runs(wanted, d, now)
      ensures forall d :: d in workers ==> d in wanted && Tended(old(workers)[d], workers[d], wanted[d], |old(loops)|)
      ensures Extends(old(loops), loops)
      ensures stops == |Stopping(old(workers), wanted, now)|
      ensures restarted == |Restarting(old(workers), wanted, now)|
    {
      hide Valid, Serves, Changed, Extends, Tended;
      ExtendsItself(loops);
      stops, restarted := 0, 0;
      ghost var was, first, gone, again := workers, loops, {}, {};
      var todo := workers.Keys;
      while todo != {}
        invariant Valid() && stops == |gone| && restarted == |again|
        invariant forall d :: d in todo ==> d in was && d in workers && workers[d] == was[d]
        invariant Extends(first, loops) && |first| <= |loops|
        invariant forall d :: d in was && d !in todo ==> Settled(d, was[d], |first|, wanted, now)
        invariant forall d :: d in workers ==> d in was
        invariant forall d :: d in gone <==> d in was && d !in todo && !Runs(wanted, d, now)
        invariant forall d :: d in again <==>
          d in was && d !in todo && Runs(wanted, d, now) && Changed(was[d].eff, wanted[d])
        decreases todo
      {
        var d :| d in todo;
        ghost var earlier := loops;
        var stop, restart := Settle(d, wanted, now, |first|);
        ExtendsTwice(first, earlier, loops);
        if stop {
          stops := stops + 1;
          gone := gone + {d};
        }
        if restart {
          restarted := restarted + 1;
          again := again + {d};
        }
        todo := todo - {d};
      }
      assert gone == Stopping(was, wanted, now);
      assert again == Restarting(was, wanted, now);
    }

    /** Starts a loop for every device that should run and has none. */
    method StartNew(wanted: map<Id, Effective>, now: int) returns (started: nat)
      requires Valid() && !stopped && ByDevice(wanted)
      modifies this`workers, this`loops
      ensures Valid()
      ensures forall d :: d in workers <==> d in old(workers) || Runs(wanted, d, now)
      ensures forall d :: d in old(workers) ==> workers[d] == old(workers)[d]
      ensures forall d :: d in workers && d !in old(workers) ==> d in wanted && workers[d].eff == wanted[d]
      ensures started == |Starting(old(workers), wanted, now)|
      ensures Extends(old(loops), loops)
    {
      hide Valid, Serves, Extends;
      ExtendsItself(loops);
      started := 0;
      ghost var was, first, added := workers, loops, {};
      var todo := wanted.Keys;
      while todo != {}
        invariant Valid() && started == |added| && Extends(first, loops)
        invariant forall d :: d in todo ==> d in wanted
        invariant forall d :: d in was ==> d in workers && workers[d] == was[d]
        invariant forall d :: d in workers && d !in was ==> d in wanted && workers[d].eff == wanted[d]
        invariant forall d :: d in workers <==> d in was || d in added
        invariant forall d :: d in added <==> d in wanted && d !in todo && Runs(wanted, d, now) && d !in was
        decreases todo
      {
        var d :| d in todo;
        if d !in workers && !wanted[d].Paused(now) {
          ghost var earlier := loops;
          Start(wanted[d]);
          ExtendsTwice(first, earlier, loops);
          started := started + 1;
          added := added + {d};
        }
        todo := todo - {d};
      }
      assert added == Starting(was, wanted, now);
    }

    /** Cancels every worker for good. */
    method Stop()
      requires Valid()
      modifies this
      ensures Valid() && stopped && workers == map[]
      ensures forall k :: 0 <= k < |loops| ==> loops[k].cancelled
    {
      while workers != map[]
        invariant Valid()
        decreases |workers|
      {
        var d :| d in workers;
        Cancel(d);
      }
      stopped := true;
    }
  }

  /** Whatever was started and cancelled before, a device has at most one running loop, with its current settings. */
  lemma OneLoopPerDevice(s: Scheduler, j: nat, k: nat)
    requires s.Valid() && j < k < |s.loops| && s.loops[j].device == s.loops[k].device
    ensures s.loops[j].cancelled || s.loops[k].cancelled
    ensures !s.loops[k].cancelled ==>
      var e := s.workers[s.loops[k].device].eff; s.loops[k] == Loop(Id(e.device), e.addr, e.interval, e.timeout, false)
  {
    if !s.loops[k].cancelled {
      assert s.Serves(s.loops[k].device);
    }
  }

  predicate ByDevice(wanted: map<Id, Effective>) {
    forall d :: d in wanted ==> Id(wanted[d].device) == d
  }

  lemma {:induction false} WantedByDevice(effs: seq<Effective>)
    ensures ByDevice(Wanted(effs))
  {
    if effs != [] {
      WantedByDevice(effs[..|effs| - 1]);
    }
  }

  // ---- What reconciliation amounts to ----------------------------------------------

  /** The number of workers changes by what was started less what was stopped. */
  lemma SizeChanges(before: Workers, after: Workers, wanted: map<Id, Effective>, now: int)
    requires forall d :: d in after <==> Runs(wanted, d, now)
    ensures |after| == |before| + |Starting(before, wanted, now)| - |Stopping(before, wanted, now)|
  {
    var starting, stopping := Starting(before, wanted, now), Stopping(before, wanted, now);
    KeySizes(after.Keys, before.Keys, starting, stopping);
    assert |after| == |after.Keys| && |before| == |before.Keys|;
  }

  lemma KeySizes<T(!new)>(after: set<T>, before: set<T>, starting: set<T>, stopping: set<T>)
    requires forall x :: x in stopping ==> x in before
    requires forall x :: x in starting ==> x !in before
    requires forall x :: x in after <==> (x in before && x !in stopping) || x in starting
    ensures |after| == |before| + |starting| - |stopping|
  {
    assert after == (before - stopping) + starting;
    assert before == (before - stopping) + stopping;
    assert (before - stopping) !! starting;
  }

  /** Applying the same set again at the same moment finds nothing to do. */
  lemma RepeatedApplyIsIdle(workers: Workers, wanted: map<Id, Effective>, now: int)
    requires forall d :: d in workers <==> Runs(wanted, d, now)
    requires forall d :: d in workers ==> d in wanted && workers[d].eff == wanted[d]
    ensures Starting(workers, wanted, now) == {} && Stopping(workers, wanted, now) == {}
    ensures Restarting(workers, wanted, now) == {}
  {
    forall d ensures d !in Starting(workers, wanted, now) && d !in Stopping(workers, wanted, now) {}
    forall d ensures d !in Restarting(workers, wanted, now) {}
  }

  // ---- Refresh, then apply -----------------------------------------------------------

  ghost predicate DistinctIds(devices: seq<Device>) {
    forall j, k :: 0 <= j < k < |devices| ==> devices[j].id != devices[k].id
  }

  /** Enabled, and neither its own pause nor that of its group lasts beyond `now`. */
  predicate ShouldRun(d: Device, groups: map<int, Group>, now: int) {
    && d.enabled
    && (d.pausedUntil.Some? ==> d.pausedUntil.value <= now)
    && (d.group.Some? && d.group.value in groups && groups[d.group.value].pausedUntil.Some? ==>
          groups[d.group.value].pausedUntil.value <= now)
  }

  ghost predicate IsEnabled(devices: seq<Device>, id: int) {
    exists k :: 0 <= k < |devices| && devices[k].id == id && devices[k].enabled
  }

  lemma EnabledEarlier(devices: seq<Device>, id: int)
    requires devices != [] && DistinctIds(devices)
    ensures var n := |devices| - 1;
      && DistinctIds(devices[..n])
      && (IsEnabled(devices, id) <==> (devices[n].id == id && devices[n].enabled) || IsEnabled(devices[..n], id))
      && (devices[n].id == id ==> !IsEnabled(devices[..n], id))
  {
    var n := |devices| - 1;
    if k :| 0 <= k < n && devices[k].id == id && devices[k].enabled {
      assert devices[..n][k] == devices[k];
    }
  }

  ghost predicate Listed(devices: seq<Device>, groups: map<int, Group>, def: Defaults, wanted: map<Id, Effective>, k: int)
    requires 0 <= k < |devices|
  {
    devices[k].enabled ==>
      Id(devices[k].id) in wanted && wanted[Id(devices[k].id)] == Resolve(devices[k], GroupOf(groups, devices[k]), def)
  }

  lemma {:induction false} AllListed(devices: seq<Device>, groups: map<int, Group>, def: Defaults, id: int)
    requires DistinctIds(devices)
    ensures var wanted := Wanted(LoadEffective(devices, groups, def));
      && (Id(id) in wanted <==> IsEnabled(devices, id))
      && forall k :: 0 <= k < |devices| ==> Listed(devices, groups, def, wanted, k)
  {
    hide Resolve, GroupOf, IsEnabled, DistinctIds;
    if devices == [] {
      NoneEnabled(id);
    } else {
      var n := |devices| - 1;
      EnabledEarlier(devices, id);
      AllListed(devices[..n], groups, def, id);
      var earlier := LoadEffective(devices[..n], groups, def);
      var e := Resolve(devices[n], GroupOf(groups, devices[n]), def);
      assert (earlier + [e])[..|earlier|] == earlier;
      forall k | 0 <= k < n
        ensures Listed(devices, groups, def, Wanted(LoadEffective(devices, groups, def)), k)
      {
        IdsDiffer(devices, k);
        assert Listed(devices[..n], groups, def, Wanted(earlier), k);
      }
    }
  }

  lemma NoneEnabled(id: int)
    ensures !IsEnabled([], id)
  {
  }

  lemma IdsDiffer(devices: seq<Device>, k: int)
    requires DistinctIds(devices) && 0 <= k < |devices| - 1
    ensures devices[k].id != devices[|devices| - 1].id
  {
  }

  lemma WantedFromTables(devices: seq<Device>, groups: map<int, Group>, def: Defaults, id: int)
    requires DistinctIds(devices)
    ensures var wanted := Wanted(LoadEffective(devices, groups, def));
      && (Id(id) in wanted <==> exists k :: 0 <= k < |devices| && devices[k].id == id && devices[k].enabled)
      && (forall k :: 0 <= k < |devices| && devices[k].id == id && devices[k].enabled ==>
            Id(id) in wanted && wanted[Id(id)] == Resolve(devices[k], GroupOf(groups, devices[k]), def))
  {
    hide Resolve, GroupOf, LoadEffective, Wanted;
    AllListed(devices, groups, def, id);
    var wanted := Wanted(LoadEffective(devices, groups, def));
    forall k | 0 <= k < |devices| && devices[k].id == id && devices[k].enabled
      ensures Id(id) in wanted && wanted[Id(id)] == Resolve(devices[k], GroupOf(groups, devices[k]), def)
    {
      assert Listed(devices, groups, def, wanted, k);
    }
  }

  /**
    After a refresh the devices that should run are exactly the enabled ones whose own pause
    and whose group's maintenance window have both passed, with the settings they resolve to.
  */
  lemma RunningIsEnabledAndUnpaused(devices: seq<Device>, groups: map<int, Group>, def: Defaults, now: int, k: nat)
    requires DistinctIds(devices) && k < |devices|
    ensures var wanted := Wanted(LoadEffective(devices, groups, def));
      var d := devices[k];
      && (Runs(wanted, Id(d.id), now) <==> ShouldRun(d, groups, now))
      && (Runs(wanted, Id(d.id), now) ==> wanted[Id(d.id)] == Resolve(d, GroupOf(groups, d), def))
    ensures forall id :: Runs(Wanted(LoadEffective(devices, groups, def)), Id(id), now) ==>
      exists j :: 0 <= j < |devices| && devices[j].id == id
  {
    WantedFromTables(devices, groups, def, devices[k].id);
    PausedByEither(devices[k], GroupOf(groups, devices[k]), def, now);
    forall id | Runs(Wanted(LoadEffective(devices, groups, def)), Id(id), now)
      ensures exists j :: 0 <= j < |devices| && devices[j].id == id
    {
      WantedFromTables(devices, groups, def, id);
    }
  }
}
