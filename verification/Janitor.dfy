/** The history tables and the maintenance pass over them, as the program runs them. */
module Janitor {
  import opened Base
  import opened Calendar
  import opened Heartbeats
  import opened Incidents
  import opened Downtime
  import opened History

  /** The rows a batch becomes, numbered from `next`. */
  function NewRows(next: int, batch: seq<Beat>): Beats {
    map id {:trigger batch[id - next]} | next <= id < next + |batch| :: batch[id - next]
  }

  lemma {:induction false} OldestExists(rest: set<DeviceDay>)
    requires rest != {}
    ensures exists k :: k in rest && forall m :: m in rest ==> k.day <= m.day
  {
    var x :| x in rest;
    if rest != {x} {
      assert rest == {x} + (rest - {x});
      OldestExists(rest - {x});
      var k :| k in rest - {x} && forall m :: m in rest - {x} ==> k.day <= m.day;
      var best := if x.day <= k.day then x else k;
      assert forall m :: m in rest ==> m == x || m in rest - {x};
      assert best in rest && forall m :: m in rest ==> best.day <= m.day;
    }
  }

  lemma {:induction false} ChunkExists<T>(s: set<T>, n: nat)
    requires n <= |s|
    ensures exists c: set<T> :: c <= s && |c| == n
  {
    if n == |s| {
      assert s <= s;
    } else {
      assert s != {};
      var x :| x in s;
      ChunkExists(s - {x}, n);
      var c: set<T> :| c <= s - {x} && |c| == n;
      assert c <= s;
    }
  }

  /** The context of the pass: once cancelled it stays so, and every statement under it fails. */
  class Context {
    var cancelled: bool

    constructor ()
    {
      cancelled := false;
    }

    method Poll() returns (stop: bool)
      modifies this
      ensures stop == cancelled && (old(cancelled) ==> cancelled)
    {
      if !cancelled {
        cancelled := *;
      }
      stop := cancelled;
    }
  }

  function Elements(s: seq<DeviceDay>): set<DeviceDay> { set x | x in s }

  ghost predicate Distinct(s: seq<DeviceDay>) {
    forall j, k :: 0 <= j < k < |s| ==> s[j] != s[k]
  }

  lemma ElementsOneMore(s: seq<DeviceDay>, n: nat)
    requires n < |s| && Distinct(s)
    ensures Elements(s[..n + 1]) == Elements(s[..n]) + {s[n]} && s[n] !in Elements(s[..n])
  {
    assert s[..n + 1] == s[..n] + [s[n]];
  }

  lemma {:induction false} DistinctSize(s: seq<DeviceDay>)
    requires Distinct(s)
    ensures |Elements(s)| == |s|
  {
    if s == [] {
      assert Elements(s) == {};
    } else {
      var n := |s| - 1;
      DistinctSize(s[..n]);
      assert Elements(s) == Elements(s[..n]) + {s[n]};
    }
  }

  /** Just these rows are gone, all of them older than `before`, and every such row if the work was finished. */
  ghost predicate Deleted(was: Beats, now: Beats, before: int, gone: set<int>, total: nat, complete: bool) {
    && gone <= Older(was, before) && |gone| == total && now == was - gone
    && (complete ==> gone == Older(was, before))
  }

  lemma OneMoreChunk(was: Beats, now: Beats, before: int, gone: set<int>, total: nat, chunk: set<int>)
    requires Deleted(was, now, before, gone, total, false) && chunk <= Older(now, before)
    requires |chunk| == Min(|Older(now, before)|, PRUNE_CHUNK)
    ensures Deleted(was, now - chunk, before, gone + chunk, total + |chunk|, |chunk| < PRUNE_CHUNK)
    ensures |Older(now - chunk, before)| == |Older(now, before)| - |chunk|
  {
    var expired := Older(now, before);
    assert Older(now - chunk, before) == expired - chunk;
    assert |gone + chunk| == |gone| + |chunk| by { assert gone !! chunk; }
    assert now - chunk == was - (gone + chunk);
    assert |expired - chunk| == |expired| - |chunk| by { assert expired == (expired - chunk) + chunk; }
    if |chunk| < PRUNE_CHUNK {
      SubsetSize(chunk, expired);
      assert gone + chunk == Older(was, before);
    }
  }

  /** One summary is there, and every other is what it was. */
  ghost predicate OnlyWrote(was: map<DeviceDay, Rollup>, now: map<DeviceDay, Rollup>, key: DeviceDay, row: Rollup) {
    && key in now && now[key] == row
    && (forall k :: k in now <==> k == key || k in was)
    && (forall k :: k in was && k != key ==> now[k] == was[k])
  }

  /** The summaries of days before `oldest` are gone, and every other is what it was. */
  ghost predicate OnlyDropped(was: map<DeviceDay, Rollup>, now: map<DeviceDay, Rollup>, oldest: int, n: nat) {
    && n == |was.Keys - now.Keys|
    && (forall k :: k in now <==> k in was && k.day >= oldest)
    && (forall k :: k in now ==> now[k] == was[k])
  }

  /** What ended before `before` is gone and nothing else: no open incident, and no downtime of a day after it. */
  ghost predicate OnlyForgot(was: seq<Incident>, now: seq<Incident>, before: int, n: nat) {
    && n == |was| - |now|
    && (forall i :: i in now <==> i in was && (i.resolved.None? || i.resolved.value >= before))
    && (forall d :: OpenRows(now, d) == OpenRows(was, d))
    && (forall d, lo, hi :: before <= lo ==> QuerySum(now, d, lo, hi) == QuerySum(was, d, lo, hi))
  }

  class Store {
    var beats: Beats
    var nextBeat: int
    var rollups: map<DeviceDay, Rollup>
    var incidents: seq<Incident>

    constructor ()
      ensures Valid() && Contents() == Tables(map[], map[], [])
    {
      beats, nextBeat, rollups, incidents := map[], 1, map[], [];
    }

    function Contents(): Tables
      reads this
    {
      Tables(beats, rollups, incidents)
    }

    ghost predicate Valid()
      reads this
    {
      forall id :: id in beats ==> id < nextBeat
    }

    method InsertHeartbeats(batch: seq<Beat>)
      requires Valid()
      modifies this
      ensures Valid()
      ensures Contents() == old(Contents()).(beats := old(beats) + NewRows(old(nextBeat), batch))
      ensures old(beats).Keys !! NewRows(old(nextBeat), batch).Keys
    {
      var first := nextBeat;
      for n := 0 to |batch|
        invariant nextBeat == first + n
        invariant beats == old(beats) + NewRows(first, batch[..n])
        invariant rollups == old(rollups) && incidents == old(incidents)
      {
        beats := beats[nextBeat := batch[n]];
        nextBeat := nextBeat + 1;
        assert NewRows(first, batch[..n + 1]) == NewRows(first, batch[..n])[first + n := batch[n]];
      }
      assert batch[..|batch|] == batch;
    }

    /** The oldest finished device-days without a rollup, at most `limit` of them. */
    method PendingRollups(cal: Calendar, today: int, limit: int) returns (cands: seq<DeviceDay>)
      ensures Distinct(cands)
      ensures IsBatch(Elements(cands), Pending(cal, beats, rollups, today), if limit <= 0 then ROLLUP_BATCH else limit)
    {
      var most: nat := if limit <= 0 then ROLLUP_BATCH else limit;
      var pending := Pending(cal, beats, rollups, today);
      var rest := pending;
      cands := [];
      while rest != {} && |cands| < most
        invariant |cands| <= most && rest <= pending && Distinct(cands) && Elements(cands) == pending - rest
        invariant forall c, p {:trigger NoLater(c, p)} :: c in pending - rest && p in rest ==> NoLater(c, p)
        decreases rest
      {
        OldestExists(rest);
        var c :| c in rest && forall m :: m in rest ==> c.day <= m.day;
        rest := rest - {c};
        cands := cands + [c];
        assert Elements(cands) == pending - rest;
      }
      DistinctSize(cands);
      assert |pending| == |pending - rest| + |rest| by { assert pending == (pending - rest) + rest; }
    }

    /** Upserts one summary: its day is no candidate any more, and every other day stays what it was. */
    method WriteRollup(ctx: Context, key: DeviceDay, row: Rollup) returns (ok: bool)
      modifies this`rollups, ctx
      ensures old(ctx.cancelled) ==> ctx.cancelled
      ensures ok == !ctx.cancelled
      ensures rollups == if ok then old(rollups)[key := row] else old(rollups)
      ensures ok ==> OnlyWrote(old(rollups), rollups, key, row)
    {
      var stop := ctx.Poll();
      if stop {
        return false;
      }
      rollups := rollups[key := row];
      return true;
    }

    /** Deletes old rows a chunk at a time; a cancelled context leaves the remainder for the next pass. */
    method PruneHeartbeats(ctx: Context, before: int) returns (total: nat, complete: bool, ghost gone: set<int>)
      requires Valid()
      modifies this`beats, ctx
      ensures Valid() && (old(ctx.cancelled) ==> ctx.cancelled)
      ensures Deleted(old(beats), beats, before, gone, total, complete)
      ensures !complete ==> ctx.cancelled
      ensures old(ctx.cancelled) ==> gone == {} && !complete
    {
      hide Older;
      total, complete, gone := 0, false, {};
      ghost var was := beats;
      while true
        invariant Valid() && (old(ctx.cancelled) ==> ctx.cancelled && gone == {})
        invariant Deleted(was, beats, before, gone, total, false)
        decreases |Older(beats, before)|
      {
        var stop := ctx.Poll();
        if stop {
          return;
        }
        ghost var chunk;
        ghost var from := beats;
        var n;
        n, chunk := DeleteChunk(before);
        OneMoreChunk(was, from, before, gone, total, chunk);
        gone := gone + chunk;
        total := total + n;
        if n < PRUNE_CHUNK {
          complete := true;
          return;
        }
      }
    }

    /** One statement: any 10000 of the rows older than `before`, or all of them if there are fewer. */
    method DeleteChunk(before: int) returns (n: nat, ghost chunk: set<int>)
      requires Valid()
      modifies this`beats
      ensures Valid() && chunk <= Older(old(beats), before) && beats == old(beats) - chunk
      ensures n == |chunk| == Min(|Older(old(beats), before)|, PRUNE_CHUNK)
    {
      var expired := Older(beats, before);
      n := Min(|expired|, PRUNE_CHUNK);
      ChunkExists(expired, n);
      var some: set<int> :| some <= expired && |some| == n;
      chunk := some;
      beats := beats - some;
    }

    /** Drops the summaries of days before `oldest`, and only those. */
    method PruneRollups(ctx: Context, oldest: int) returns (n: nat, ok: bool)
      modifies this`rollups, ctx
      ensures (old(ctx.cancelled) ==> ctx.cancelled) && ok == !ctx.cancelled
      ensures rollups == if ok then Since(old(rollups), oldest) else old(rollups)
      ensures ok ==> OnlyDropped(old(rollups), rollups, oldest, n)
    {
      n := 0;
      var stop := ctx.Poll();
      ok := !stop;
      if stop {
        return;
      }
      var kept := Since(rollups, oldest);
      n := |rollups.Keys - kept.Keys|;
      rollups := kept;
    }

    /** Deletes incidents that ended before `before`: no open one goes, and no later day's downtime changes. */
    method PruneResolvedIncidents(ctx: Context, before: int) returns (n: nat, ok: bool)
      modifies this`incidents, ctx
      ensures (old(ctx.cancelled) ==> ctx.cancelled) && ok == !ctx.cancelled
      ensures incidents == if ok then Retained(old(incidents), before) else old(incidents)
      ensures ok ==> OnlyForgot(old(incidents), incidents, before, n)
    {
      n := 0;
      var stop := ctx.Poll();
      ok := !stop;
      if stop {
        return;
      }
      var kept := Retained(incidents, before);
      forall d ensures OpenRows(kept, d) == OpenRows(incidents, d) {
        OpenRowsRetained(incidents, before, d);
      }
      forall d, lo, hi | before <= lo ensures QuerySum(kept, d, lo, hi) == QuerySum(incidents, d, lo, hi) {
        RetentionKeepsQuery(incidents, d, before, lo, hi);
      }
      n := |incidents| - |kept|;
      incidents := kept;
    }

    method RollupRows(ids: set<int>, first: int) returns (out: seq<DayRow>)
      ensures Listing(out) && KeysOf(out) == set k | k in rollups && k.device in ids && k.day >= first
      ensures forall row :: row in out ==>
        row.key in rollups && row == DayRow(row.key, rollups[row.key].checks, rollups[row.key].downtime, FromRollup)
    {
      out := [];
      var keys := set k | k in rollups && k.device in ids && k.day >= first;
      var left := keys;
      while left != {}
        invariant left <= keys && Listing(out) && KeysOf(out) == keys - left
        invariant forall row :: row in out ==>
          row.key in rollups && row == DayRow(row.key, rollups[row.key].checks, rollups[row.key].downtime, FromRollup)
        decreases left
      {
        var k :| k in left;
        var row := DayRow(k, rollups[k].checks, rollups[k].downtime, FromRollup);
        AppendRow(out, row);
        left := left - {k};
        out := out + [row];
      }
    }

    method RawRows(cal: Calendar, keys: set<DeviceDay>, down: map<DeviceDay, int>) returns (out: seq<DayRow>)
      ensures Listing(out) && KeysOf(out) == keys
      ensures forall row :: row in out ==> row == DayRow(row.key, Tally(cal, beats, row.key), At(down, row.key), FromRaw)
    {
      out := [];
      var left := keys;
      while left != {}
        invariant left <= keys && Listing(out) && KeysOf(out) == keys - left
        invariant forall row :: row in out ==>
          row == DayRow(row.key, Tally(cal, beats, row.key), At(down, row.key), FromRaw)
        decreases left
      {
        var k :| k in left;
        var row := DayRow(k, Tally(cal, beats, k), At(down, k), FromRaw);
        AppendRow(out, row);
        left := left - {k};
        out := out + [row];
      }
    }

    /** Daily figures of some devices over the last `days` days: rollups first, raw rows for the rest. */
    method DeviceDays(cal: Calendar, ids: set<int>, days: int, now: int) returns (out: seq<DayRow>)
      requires cal.Ordered()
      ensures Listing(out)
      ensures var first := cal.DayOf(now) - (WindowDays(days) - 1);
        forall key: DeviceDay ::
          if key.device in ids && key.day >= first && View(cal, Contents(), first, now, key).Some?
          then View(cal, Contents(), first, now, key).value in out
          else key !in KeysOf(out)
      ensures forall row :: row in out && row.source.FromRaw? ==> CountsRaw(cal, beats, row)
    {
      hide Tally, LoopSum, CountsRaw, Listing, WindowDays;
      var first := cal.DayOf(now) - (WindowDays(days) - 1);
      out := RollupRows(ids, first);
      var raw := RawKeys(cal, beats, ids, first);
      var pending := set k | k in raw && k !in KeysOf(out);
      ghost var rolled := out;
      if pending != {} {
        var down := DowntimeByDay(cal, incidents, ids, cal.Start(first), now);
        var rows := RawRows(cal, pending, down);
        forall row | row in rows
          ensures row.key in KeysOf(rows)
        {}
        JoinListings(out, rows);
        forall row | row in rows
          ensures View(cal, Contents(), first, now, row.key) == Some(row)
        {
          RawDays(cal, beats, ids, first, row.key);
          assert row.key == DeviceDay(row.key.device, row.key.day);
        }
        forall row | row in rows ensures CountsRaw(cal, beats, row) {
          RawRowCounts(cal, beats, row);
        }
        out := out + rows;
      }
      forall key: DeviceDay
        ensures if key.device in ids && key.day >= first && View(cal, Contents(), first, now, key).Some?
          then View(cal, Contents(), first, now, key).value in out
          else key !in KeysOf(out)
      {
        RawDays(cal, beats, ids, first, key);
        assert key in KeysOf(out) <==> key in KeysOf(rolled) || key in pending;
        if key in KeysOf(out) {
          var row :| row in out && row.key == key;
        }
      }
    }
  }

  function KeysOf(rows: seq<DayRow>): set<DeviceDay> { set row | row in rows :: row.key }

  /** A raw day is shown with the rows between its midnights, and with those of them that succeeded. */
  ghost predicate CountsRaw(cal: Calendar, beats: Beats, row: DayRow) {
    var on := set id | id in beats && beats[id].device == row.key.device
                       && cal.Start(row.key.day) <= beats[id].at < cal.Start(row.key.day + 1);
    row.checks == Checks(|on|, |set id | id in on && beats[id].up|)
  }

  lemma RawRowCounts(cal: Calendar, beats: Beats, row: DayRow)
    requires cal.Ordered() && row.checks == Tally(cal, beats, row.key)
    ensures CountsRaw(cal, beats, row)
  {
    TallyCounts(cal, beats, row.key);
  }

  /** No device-day appears twice. */
  ghost predicate Listing(rows: seq<DayRow>) {
    forall j, k :: 0 <= j < k < |rows| ==> rows[j].key != rows[k].key
  }

  lemma JoinListings(a: seq<DayRow>, b: seq<DayRow>)
    requires Listing(a) && Listing(b) && KeysOf(a) !! KeysOf(b)
    ensures Listing(a + b) && KeysOf(a + b) == KeysOf(a) + KeysOf(b)
  {
    forall j | 0 <= j < |a| ensures a[j].key in KeysOf(a) {}
    forall j | 0 <= j < |b| ensures b[j].key in KeysOf(b) {}
    forall row | row in a ensures row in a + b {}
    forall row | row in b ensures row in a + b {}
  }

  lemma AppendRow(a: seq<DayRow>, row: DayRow)
    requires Listing(a) && row.key !in KeysOf(a)
    ensures Listing(a + [row]) && KeysOf(a + [row]) == KeysOf(a) + {row.key}
  {
    assert KeysOf([row]) == {row.key} by { assert row in [row]; }
    JoinListings(a, [row]);
  }

  /** Ninety days unless asked for otherwise, and never more than 400. */
  function WindowDays(days: int): (n: int)
    ensures 1 <= n <= 400 && (1 <= days <= 400 ==> n == days)
    ensures (days <= 0 ==> n == 90) && (days > 400 ==> n == 400)
  {
    if days <= 0 then 90 else if days > MAX_UPTIME_DAYS then MAX_UPTIME_DAYS else days
  }

  function RawKeys(cal: Calendar, beats: Beats, ids: set<int>, first: int): set<DeviceDay> {
    set id | id in beats && beats[id].device in ids && beats[id].at >= cal.Start(first) :: KeyOf(cal, beats[id])
  }

  lemma RawDays(cal: Calendar, beats: Beats, ids: set<int>, first: int, key: DeviceDay)
    requires cal.Ordered()
    ensures key in RawKeys(cal, beats, ids, first)
      <==> key.device in ids && key.day >= first && RowsOf(cal, beats, key) != {}
  {
    var raw := RawKeys(cal, beats, ids, first);
    if key in raw {
      var id :| id in beats && beats[id].device in ids && beats[id].at >= cal.Start(first) && KeyOf(cal, beats[id]) == key;
      cal.DayOrder(beats[id].at, first);
      assert id in RowsOf(cal, beats, key);
    }
    forall id | id in RowsOf(cal, beats, key) && key.device in ids && key.day >= first
      ensures key in raw
    {
      cal.DayOrder(beats[id].at, first);
      assert KeyOf(cal, beats[id]) in raw;
    }
  }

  lemma CollectNothing(batch: seq<DeviceDay>, oldest: int, f: DeviceDay -> Rollup)
    ensures Collect(Elements(batch[..0]), oldest, f) == map[]
  {
    assert Elements(batch[..0]) == {};
  }

  lemma CollectMore(picked: set<DeviceDay>, c: DeviceDay, oldest: int, f: DeviceDay -> Rollup)
    requires c !in picked
    ensures var before, after := Collect(picked, oldest, f), Collect(picked + {c}, oldest, f);
      c !in before && after == if c.day < oldest then before else before[c := f(c)]
  {
  }

  lemma OverlayMore(was: map<DeviceDay, Rollup>, before: map<DeviceDay, Rollup>, c: DeviceDay, row: Rollup)
    requires c !in before
    ensures was + before[c := row] == (was + before)[c := row] && |before[c := row]| == |before| + 1
  {
    assert before[c := row].Keys == before.Keys + {c};
    assert |before[c := row]| == |before[c := row].Keys| && |before| == |before.Keys|;
  }

  lemma CollectAppend(was: map<DeviceDay, Rollup>, picked: set<DeviceDay>, c: DeviceDay, oldest: int, f: DeviceDay -> Rollup)
    requires c !in picked
    ensures var before, after := Collect(picked, oldest, f), Collect(picked + {c}, oldest, f);
      if c.day < oldest then after == before
      else was + after == (was + before)[c := f(c)] && |after| == |before| + 1
  {
    hide Collect;
    CollectMore(picked, c, oldest, f);
    OverlayMore(was, Collect(picked, oldest, f), c, f(c));
  }

  class Janitor {
    const store: Store
    var lastPass: Option<int>

    constructor (store: Store)
      ensures this.store == store && lastPass == None
    {
      this.store := store;
      lastPass := None;
    }

    /** Writes one rollup per device-day of the batch in turn, skipping days past the rollup window. */
    method WriteSummaries(ctx: Context, cal: Calendar, batch: seq<DeviceDay>, oldest: int) returns (written: nat, ghost n: nat)
      requires Distinct(batch)
      modifies store`rollups, ctx
      ensures old(ctx.cancelled) ==> ctx.cancelled
      ensures n <= |batch| && (n < |batch| ==> ctx.cancelled)
      ensures store.rollups == old(store.rollups) + Collect(Elements(batch[..n]), oldest, Summarizer(cal, old(store.Contents())))
      ensures written == |Collect(Elements(batch[..n]), oldest, Summarizer(cal, old(store.Contents())))|
    {
      hide Tally, DowntimeForDay, Collect, Elements, OnlyWrote;
      ghost var t := store.Contents();
      ghost var f := Summarizer(cal, t);
      CollectNothing(batch, oldest, f);
      written, n := 0, 0;
      var skipped := 0;
      for k := 0 to |batch|
        invariant n == k && (old(ctx.cancelled) ==> ctx.cancelled)
        invariant store.rollups == t.rollups + Collect(Elements(batch[..k]), oldest, f)
        invariant written == |Collect(Elements(batch[..k]), oldest, f)|
      {
        var c := batch[k];
        var stop := ctx.Poll();
        if stop {
          return;
        }
        ElementsOneMore(batch, k);
        CollectAppend(t.rollups, Elements(batch[..k]), c, oldest, f);
        if c.day < oldest {
          skipped := skipped + 1;
        } else {
          var row := Rollup(Tally(cal, store.beats, c), DowntimeForDay(cal, store.incidents, c.device, c.day));
          var ok := store.WriteRollup(ctx, c, row);
          if !ok {
            return;
          }
          written := written + 1;
        }
        n := k + 1;
      }
    }

    method RollUp(ctx: Context, cal: Calendar, today: int, oldest: int)
      returns (written: nat, ghost picked: set<DeviceDay>, ghost done: set<DeviceDay>)
      modifies store`rollups, ctx
      ensures old(ctx.cancelled) ==> ctx.cancelled
      ensures IsBatch(picked, old(Pending(cal, store.beats, store.rollups, today)), 500)
      ensures done <= picked && (done != picked ==> ctx.cancelled)
      ensures store.Contents() == RolledUp(cal, old(store.Contents()), done, oldest)
      ensures written == |Summaries(cal, old(store.Contents()), done, oldest)|
    {
      var batch := store.PendingRollups(cal, today, ROLLUP_BATCH);
      picked := Elements(batch);
      ghost var n;
      written, n := WriteSummaries(ctx, cal, batch, oldest);
      done := Elements(batch[..n]);
      assert n == |batch| ==> batch[..n] == batch;
    }

    /** Raw rows, rollups and resolved incidents past their retention, in this order until the context is cancelled. */
    method Prune(ctx: Context, cal: Calendar, r: Retention, today: int) returns (complete: bool, pruned: bool, ghost gone: set<int>)
      requires store.Valid()
      modifies store, ctx
      ensures store.Valid()
      ensures Reaches(cal, r, old(store.Contents()), store.Contents(), today, gone, pruned, complete)
      ensures old(ctx.cancelled) ==> gone == {} && !pruned
    {
      hide Since, Retained, OnlyDropped, OnlyForgot, Deleted, Reaches;
      ghost var t := store.Contents();
      var total, n, all;
      total, all, gone := store.PruneHeartbeats(ctx, cal.Start(today - r.rawDays));
      n, pruned := store.PruneRollups(ctx, today - r.rollupDays);
      n, complete := store.PruneResolvedIncidents(ctx, cal.Start(today - r.rollupDays));
      ReachesInParts(cal, r, t, store.Contents(), today, gone, total, all, pruned, complete);
    }

    /** One maintenance pass: summarise finished days, then prune; a shutdown cuts it short anywhere. */
    method Once(ctx: Context, cal: Calendar, r: Retention, now: int)
      returns (complete: bool, ghost picked: set<DeviceDay>, ghost cut: Cut)
      requires store.Valid()
      modifies this, store, ctx
      ensures store.Valid() && lastPass == Some(now)
      ensures IsBatch(picked, old(Pending(cal, store.beats, store.rollups, cal.DayOf(now))), 500)
      ensures complete ==> store.Contents() == Pass(cal, r, old(store.Contents()), picked, cal.DayOf(now))
      ensures !complete ==>
        && CanCut(cal, r, old(store.Contents()), picked, cal.DayOf(now), cut)
        && store.Contents() == CutShort(cal, r, old(store.Contents()), cal.DayOf(now), cut)
    {
      hide RolledUp, Reaches, Pass, CanCut, CutShort, IsBatch, Pending;
      var today := cal.DayOf(now);
      ghost var t := store.Contents();
      var written, pruned;
      ghost var done, gone;
      written, picked, done := RollUp(ctx, cal, today, today - r.rollupDays);
      complete, pruned, gone := Prune(ctx, cal, r, today);
      cut := Cut(done, gone, pruned);
      PassInParts(cal, r, t, store.Contents(), picked, today, cut, complete);
      lastPass := Some(now);
    }
  }

  /** How far the pruning half got: each part only after the one before it. */
  ghost predicate Reaches(cal: Calendar, r: Retention, t: Tables, t': Tables, today: int, gone: set<int>, pruned: bool, complete: bool) {
    var expired := Older(t.beats, cal.Start(today - r.rawDays));
    && t'.beats == t.beats - gone && gone <= expired
    && t'.rollups == (if pruned then Since(t.rollups, today - r.rollupDays) else t.rollups)
    && t'.incidents == (if complete then Retained(t.incidents, cal.Start(today - r.rollupDays)) else t.incidents)
    && (pruned ==> gone == expired) && (complete ==> pruned)
  }

  lemma ReachesInParts(cal: Calendar, r: Retention, t: Tables, t': Tables, today: int, gone: set<int>, total: nat,
                       all: bool, pruned: bool, complete: bool)
    requires Deleted(t.beats, t'.beats, cal.Start(today - r.rawDays), gone, total, all)
    requires t'.rollups == if pruned then Since(t.rollups, today - r.rollupDays) else t.rollups
    requires t'.incidents == if complete then Retained(t.incidents, cal.Start(today - r.rollupDays)) else t.incidents
    requires (pruned ==> all) && (complete ==> pruned)
    ensures Reaches(cal, r, t, t', today, gone, pruned, complete)
  {
  }

  lemma PassInParts(cal: Calendar, r: Retention, t: Tables, t': Tables, picked: set<DeviceDay>, today: int, cut: Cut, complete: bool)
    requires cut.done <= picked && (cut.gone != {} || cut.pruned ==> cut.done == picked)
    requires Reaches(cal, r, RolledUp(cal, t, cut.done, today - r.rollupDays), t', today, cut.gone, cut.pruned, complete)
    ensures if complete then t' == Pass(cal, r, t, picked, today)
      else CanCut(cal, r, t, picked, today, cut) && t' == CutShort(cal, r, t, today, cut)
  {
    hide Summaries, Since, Retained, Older;
  }
}
