/**
  Daily history: finished days are summarised, raw rows age out, and one view
  merges the summaries with whatever is still raw.
*/
module History {
  import opened Base
  import opened Calendar
  import opened Heartbeats
  import opened Incidents
  import opened Downtime

  const ROLLUP_BATCH := 500
  const PRUNE_CHUNK := 10_000
  const MAX_UPTIME_DAYS := 400

  datatype Rollup = Rollup(checks: Checks, downtime: int)

  datatype Retention = Retention(rawDays: int, rollupDays: int) {
    predicate Valid() { rawDays > 0 && rollupDays > 0 }
  }

  datatype Tables = Tables(beats: Beats, rollups: map<DeviceDay, Rollup>, incidents: seq<Incident>)

  // ---- One pass, on values ---------------------------------------------------

  /** Device-days before `today` that have raw rows and no rollup. */
  function Pending(cal: Calendar, beats: Beats, rollups: map<DeviceDay, Rollup>, today: int): set<DeviceDay> {
    set id | id in beats && beats[id].at < cal.Start(today) && KeyOf(cal, beats[id]) !in rollups :: KeyOf(cal, beats[id])
  }

  /** A possible answer to "the oldest `limit` pending device-days": ties go either way. */
  ghost predicate IsBatch(picked: set<DeviceDay>, pending: set<DeviceDay>, limit: nat) {
    && picked <= pending
    && |picked| == Min(limit, |pending|)
    && (forall c, p {:trigger NoLater(c, p)} :: c in picked && p in pending && p !in picked ==> NoLater(c, p))
  }

  predicate NoLater(c: DeviceDay, p: DeviceDay) { c.day <= p.day }

  function Summary(cal: Calendar, t: Tables, key: DeviceDay): Rollup {
    Rollup(Tally(cal, t.beats, key), DowntimeForDay(cal, t.incidents, key.device, key.day))
  }

  function Summaries(cal: Calendar, t: Tables, picked: set<DeviceDay>, oldest: int): map<DeviceDay, Rollup> {
    Collect(picked, oldest, Summarizer(cal, t))
  }

  function Collect(picked: set<DeviceDay>, oldest: int, f: DeviceDay -> Rollup): map<DeviceDay, Rollup> {
    map c | c in picked && c.day >= oldest :: f(c)
  }

  function Summarizer(cal: Calendar, t: Tables): DeviceDay -> Rollup {
    (c: DeviceDay) => Summary(cal, t, c)
  }

  /** Rollups of day `oldest` and later. */
  function Since(rollups: map<DeviceDay, Rollup>, oldest: int): map<DeviceDay, Rollup> {
    map k | k in rollups && k.day >= oldest :: rollups[k]
  }

  /** The aggregation half: one rollup per picked day that is still inside the rollup window. */
  function RolledUp(cal: Calendar, t: Tables, picked: set<DeviceDay>, oldest: int): Tables {
    t.(rollups := t.rollups + Summaries(cal, t, picked, oldest))
  }

  /** The pruning half: raw rows, rollups and resolved incidents each age out at their own midnight. */
  function Pruned(cal: Calendar, r: Retention, t: Tables, today: int): Tables {
    Tables(
      t.beats - Older(t.beats, cal.Start(today - r.rawDays)),
      Since(t.rollups, today - r.rollupDays),
      Retained(t.incidents, cal.Start(today - r.rollupDays)))
  }

  /** A whole pass that picked `picked`: summarise first, then prune. */
  function Pass(cal: Calendar, r: Retention, t: Tables, picked: set<DeviceDay>, today: int): Tables {
    Pruned(cal, r, RolledUp(cal, t, picked, today - r.rollupDays), today)
  }

  /** How far a pass got before its context was cancelled: days summarised, raw rows deleted, old rollups dropped. */
  datatype Cut = Cut(done: set<DeviceDay>, gone: set<int>, pruned: bool)

  /** Each part of a pass begins only when the one before it is finished. */
  ghost predicate CanCut(cal: Calendar, r: Retention, t: Tables, picked: set<DeviceDay>, today: int, c: Cut) {
    var expired := Older(t.beats, cal.Start(today - r.rawDays));
    && c.done <= picked && c.gone <= expired
    && (c.gone != {} || c.pruned ==> c.done == picked)
    && (c.pruned ==> c.gone == expired)
  }

  /** What a pass cut short leaves behind. */
  function CutShort(cal: Calendar, r: Retention, t: Tables, today: int, c: Cut): Tables {
    var s := RolledUp(cal, t, c.done, today - r.rollupDays);
    Tables(s.beats - c.gone, if c.pruned then Since(s.rollups, today - r.rollupDays) else s.rollups, s.incidents)
  }

  // ---- The merged view -------------------------------------------------------

  datatype Source = FromRollup | FromRaw

  datatype DayRow = DayRow(key: DeviceDay, checks: Checks, downtime: int, source: Source)

  /** The row shown for a device-day of the window starting on day `first`, if there is one. */
  function View(cal: Calendar, t: Tables, first: int, now: int, key: DeviceDay): Option<DayRow> {
    if key in t.rollups then
      Some(DayRow(key, t.rollups[key].checks, t.rollups[key].downtime, FromRollup))
    else if RowsOf(cal, t.beats, key) != {} then
      Some(DayRow(key, Tally(cal, t.beats, key),
                  LoopSum(cal, t.incidents, cal.Start(first), now, key.device, key.day), FromRaw))
    else
      None
  }

  /** The figures of a day without saying where they came from. */
  function Figures(cal: Calendar, t: Tables, first: int, now: int, key: DeviceDay): Option<(Checks, int)> {
    match View(cal, t, first, now, key)
    case None => None
    case Some(row) => Some((row.checks, row.downtime))
  }

  /** The checks a day is reported with: none at all when it has no row. */
  function ReportedChecks(cal: Calendar, t: Tables, key: DeviceDay): Checks {
    if key in t.rollups then t.rollups[key].checks else Tally(cal, t.beats, key)
  }

  // ---- Batches ---------------------------------------------------------------

  /** Pending device-days whose raw rows the same pass would delete. */
  function Endangered(pending: set<DeviceDay>, today: int, r: Retention): set<DeviceDay> {
    set p | p in pending && p.day < today - r.rawDays
  }

  /** A batch holds every endangered device-day exactly when they fit, or it holds what is pending. */
  lemma BatchCoversEndangered(picked: set<DeviceDay>, pending: set<DeviceDay>, limit: nat, today: int, r: Retention)
    requires IsBatch(picked, pending, limit)
    ensures Endangered(pending, today, r) <= picked
      <==> |Endangered(pending, today, r)| <= limit
  {
    var endangered := Endangered(pending, today, r);
    if endangered <= picked {
      SubsetSize(endangered, picked);
    } else {
      var p :| p in endangered && p !in picked;
      forall c | c in picked ensures c in endangered { assert NoLater(c, p); }
      if |picked| < limit {
        SubsetSize(picked, pending);
        assert false;
      }
      assert picked + {p} <= endangered;
      SubsetSize(picked + {p}, endangered);
    }
  }

  lemma BatchLeaves(picked: set<DeviceDay>, pending: set<DeviceDay>, limit: nat, after: set<DeviceDay>)
    requires IsBatch(picked, pending, limit)
    requires forall p :: p in after ==> p in pending && p !in picked
    ensures |after| <= |pending| - Min(limit, |pending|)
  {
    SubsetSize(after, pending - picked);
    assert pending == (pending - picked) + picked;
  }

  function Expired(pending: set<DeviceDay>, oldest: int): set<DeviceDay> {
    set p | p in pending && p.day < oldest
  }

  lemma BatchIsExpired(picked: set<DeviceDay>, pending: set<DeviceDay>, limit: nat, oldest: int)
    requires IsBatch(picked, pending, limit) && |Expired(pending, oldest)| >= limit
    ensures forall c :: c in picked ==> c.day < oldest
  {
    var expired := Expired(pending, oldest);
    if c :| c in picked && c.day >= oldest {
      forall p | p in expired ensures p in picked { assert !NoLater(c, p); }
      assert expired <= picked - {c};
      SubsetSize(expired, picked - {c});
    }
  }

  lemma NothingCollected(picked: set<DeviceDay>, oldest: int, f: DeviceDay -> Rollup)
    requires forall c :: c in picked ==> c.day < oldest
    ensures Collect(picked, oldest, f) == map[]
  {
  }

  /** A written summary takes its day, and no other, off the list of candidates: that is why it is never revised. */
  lemma WrittenIsNotPending(cal: Calendar, beats: Beats, rollups: map<DeviceDay, Rollup>, today: int, key: DeviceDay, row: Rollup)
    ensures Pending(cal, beats, rollups[key := row], today) == Pending(cal, beats, rollups, today) - {key}
  {
    var more := rollups[key := row];
    forall k ensures k in Pending(cal, beats, more, today) <==> k in Pending(cal, beats, rollups, today) && k != key {
      if k in Pending(cal, beats, rollups, today) && k != key {
        var id :| id in beats && beats[id].at < cal.Start(today) && KeyOf(cal, beats[id]) == k;
        assert KeyOf(cal, beats[id]) in Pending(cal, beats, more, today);
      }
      if k in Pending(cal, beats, more, today) {
        var id :| id in beats && beats[id].at < cal.Start(today) && KeyOf(cal, beats[id]) == k && k !in more;
        assert KeyOf(cal, beats[id]) in Pending(cal, beats, rollups, today);
      }
    }
  }

  // ---- A pass and the view ---------------------------------------------------

  /** The rollups after a pass, key by key. */
  lemma RollupsAfterPass(cal: Calendar, r: Retention, t: Tables, picked: set<DeviceDay>, today: int, key: DeviceDay)
    requires IsBatch(picked, Pending(cal, t.beats, t.rollups, today), ROLLUP_BATCH)
    ensures var t' := Pass(cal, r, t, picked, today);
      && (key in t'.rollups <==> key.day >= today - r.rollupDays && (key in t.rollups || key in picked))
      && (key in t.rollups && key in t'.rollups ==> t'.rollups[key] == t.rollups[key])
      && (key !in t.rollups && key in t'.rollups ==> t'.rollups[key] == Summary(cal, t, key))
  {
  }

  /**
    A finished pass row by row: a raw row stays while it is not before the raw boundary, an incident
    while it is open or ended at or after the rollup boundary, and a summary while its day is not
    before it; new are the summaries of the days picked, from the rows and incidents before the pass.
  */
  lemma PassRowByRow(cal: Calendar, r: Retention, t: Tables, picked: set<DeviceDay>, today: int)
    requires IsBatch(picked, Pending(cal, t.beats, t.rollups, today), 500)
    ensures var t' := Pass(cal, r, t, picked, today);
      var raw, expiry := cal.Start(today - r.rawDays), cal.Start(today - r.rollupDays);
      && (forall id :: id in t'.beats <==> id in t.beats && t.beats[id].at >= raw)
      && (forall id :: id in t'.beats ==> t'.beats[id] == t.beats[id])
      && (forall i :: i in t'.incidents <==> i in t.incidents && (i.resolved.None? || i.resolved.value >= expiry))
      && (forall key :: key in t'.rollups <==> key.day >= today - r.rollupDays && (key in t.rollups || key in picked))
      && (forall key :: key in t'.rollups && key in t.rollups ==> t'.rollups[key] == t.rollups[key])
      && (forall key :: key in t'.rollups && key !in t.rollups ==>
            t'.rollups[key] == Rollup(Tally(cal, t.beats, key), DowntimeForDay(cal, t.incidents, key.device, key.day)))
  {
    hide Tally, DowntimeForDay, IsBatch, Pending;
    var t' := Pass(cal, r, t, picked, today);
    forall key
      ensures key in t'.rollups <==> key.day >= today - r.rollupDays && (key in t.rollups || key in picked)
      ensures key in t'.rollups ==> t'.rollups[key] == if key in t.rollups then t.rollups[key] else Summary(cal, t, key)
    {
      RollupsAfterPass(cal, r, t, picked, today, key);
    }
  }

  /** What a pass picks: device-days that are over, have rows and no summary; the oldest 500, or all. */
  lemma PickedAre(cal: Calendar, t: Tables, picked: set<DeviceDay>, today: int, key: DeviceDay)
    requires cal.Ordered() && IsBatch(picked, Pending(cal, t.beats, t.rollups, today), 500)
    ensures var waits := key.day < today && key !in t.rollups && exists id :: id in t.beats && KeyOf(cal, t.beats[id]) == key;
      && |picked| <= 500
      && (key in picked ==> waits)
      && (waits && key !in picked ==> |picked| == 500 && forall c :: c in picked ==> c.day <= key.day)
  {
    hide IsBatch, Pending, KeyOf;
    WaitsMeans(cal, t, today, key);
    LeftOutIsYounger(picked, Pending(cal, t.beats, t.rollups, today), key);
  }

  lemma LeftOutIsYounger(picked: set<DeviceDay>, pending: set<DeviceDay>, key: DeviceDay)
    requires IsBatch(picked, pending, 500)
    ensures |picked| <= 500 && (key in picked ==> key in pending)
    ensures key in pending && key !in picked ==> |picked| == 500 && forall c :: c in picked ==> c.day <= key.day
  {
    if key in pending && key !in picked {
      forall c | c in picked ensures c.day <= key.day {
        assert NoLater(c, key);
      }
      SubsetSize(picked + {key}, pending);
    }
  }

  lemma WaitsMeans(cal: Calendar, t: Tables, today: int, key: DeviceDay)
    requires cal.Ordered()
    ensures key in Pending(cal, t.beats, t.rollups, today)
      <==> key.day < today && key !in t.rollups && exists id :: id in t.beats && KeyOf(cal, t.beats[id]) == key
  {
    hide Pending, KeyOf;
    PendingMeans(cal, t.beats, t.rollups, today, key);
    var ids := RowsOf(cal, t.beats, key);
    assert forall id :: id in ids <==> id in t.beats && KeyOf(cal, t.beats[id]) == key;
    if !(exists id :: id in t.beats && KeyOf(cal, t.beats[id]) == key) {
      var none := set id | id in ids;
      assert none == {};
      assert ids == none;
    }
  }

  /** Nothing that a pass drops was of interest: no pending day of the window loses its raw rows unsummarised. */
  predicate Fits(cal: Calendar, r: Retention, t: Tables, today: int) {
    var endangered := Endangered(Pending(cal, t.beats, t.rollups, today), today, r);
    |endangered| <= ROLLUP_BATCH || forall p :: p in endangered ==> p.day < today - r.rollupDays
  }

  /** A day summarised by the pass already showed those figures. */
  lemma SummaryShowsRawFigures(cal: Calendar, t: Tables, today: int, first: int, now: int, key: DeviceDay)
    requires cal.Ordered() && cal.Start(today) <= now
    requires forall k :: 0 <= k < |t.incidents| ==> !t.incidents[k].Reversed()
    requires first <= key.day && key in Pending(cal, t.beats, t.rollups, today)
    ensures var s := Summary(cal, t, key);
      Figures(cal, t, first, now, key) == Some((s.checks, s.downtime))
  {
    PendingMeans(cal, t.beats, t.rollups, today, key);
    assert key.day + 1 < today ==> cal.Start(key.day + 1) < cal.Start(today);
    LoopAgreesWithQuery(cal, t.incidents, first, now, key.device, key.day);
  }

  /** A day the pass does not summarise keeps its figures, or loses them all. */
  lemma RawDayAfterPass(cal: Calendar, r: Retention, t: Tables, picked: set<DeviceDay>, today: int, first: int, now: int, key: DeviceDay)
    requires cal.Ordered() && today - r.rollupDays <= first
    requires key !in t.rollups && key !in Pass(cal, r, t, picked, today).rollups
    ensures Figures(cal, Pass(cal, r, t, picked, today), first, now, key)
      == if key.day < today - r.rawDays then None else Figures(cal, t, first, now, key)
  {
    var t' := Pass(cal, r, t, picked, today);
    var oldest := today - r.rollupDays;
    RowsAfterPrune(cal, t.beats, today - r.rawDays, key);
    assert oldest < first ==> cal.Start(oldest) < cal.Start(first);
    if key.day >= today - r.rawDays {
      SameRowsSameTally(cal, t.beats, t'.beats, key);
      RetentionKeepsLoop(cal, t.incidents, key.device, oldest, key.day, cal.Start(first), now);
    }
  }

  /** The figures one key shows before and after a pass. */
  lemma PassAtKey(cal: Calendar, r: Retention, t: Tables, picked: set<DeviceDay>, today: int, first: int, now: int, key: DeviceDay)
    requires cal.Ordered() && r.Valid() && cal.Start(today) <= now
    requires IsBatch(picked, Pending(cal, t.beats, t.rollups, today), ROLLUP_BATCH)
    requires forall k :: 0 <= k < |t.incidents| ==> !t.incidents[k].Reversed()
    requires today - r.rollupDays <= first <= key.day
    ensures Figures(cal, Pass(cal, r, t, picked, today), first, now, key)
      == if key in Endangered(Pending(cal, t.beats, t.rollups, today), today, r) && key !in picked
         then None else Figures(cal, t, first, now, key)
  {
    RollupsAfterPass(cal, r, t, picked, today, key);
    PendingMeans(cal, t.beats, t.rollups, today, key);
    if key in t.rollups {
    } else if key in picked {
      SummaryShowsRawFigures(cal, t, today, first, now, key);
    } else {
      RawDayAfterPass(cal, r, t, picked, today, first, now, key);
    }
  }

  lemma LostAtKey(cal: Calendar, r: Retention, t: Tables, picked: set<DeviceDay>, today: int, first: int, now: int, key: DeviceDay)
    requires cal.Ordered() && r.Valid() && cal.Start(today) <= now
    requires IsBatch(picked, Pending(cal, t.beats, t.rollups, today), ROLLUP_BATCH)
    requires forall k :: 0 <= k < |t.incidents| ==> !t.incidents[k].Reversed()
    requires today - r.rollupDays <= first <= key.day
    ensures Figures(cal, Pass(cal, r, t, picked, today), first, now, key) == Figures(cal, t, first, now, key)
      <==> !(key in Endangered(Pending(cal, t.beats, t.rollups, today), today, r) && key !in picked)
  {
    hide Pass, IsBatch;
    PassAtKey(cal, r, t, picked, today, first, now, key);
    PendingMeans(cal, t.beats, t.rollups, today, key);
  }

  lemma PendingMeans(cal: Calendar, beats: Beats, rollups: map<DeviceDay, Rollup>, today: int, key: DeviceDay)
    requires cal.Ordered()
    ensures key in Pending(cal, beats, rollups, today)
      <==> key.day < today && key !in rollups && RowsOf(cal, beats, key) != {}
  {
    if key in Pending(cal, beats, rollups, today) {
      var id :| id in beats && beats[id].at < cal.Start(today) && KeyOf(cal, beats[id]) == key;
      cal.DayOrder(beats[id].at, today);
      assert id in RowsOf(cal, beats, key);
    }
    forall id | id in RowsOf(cal, beats, key) && key.day < today && key !in rollups
      ensures key in Pending(cal, beats, rollups, today)
    {
      cal.DayOrder(beats[id].at, today);
      assert KeyOf(cal, beats[id]) in Pending(cal, beats, rollups, today);
    }
  }

  /**
    A maintenance pass is invisible in the merged view - every device-day of the
    window shows the same checks and the same downtime before and after it - exactly
    when the pending days about to lose their raw rows fit in one batch, or none of
    them lies in the rollup window.
  */
  lemma PassPreservesViewIffBatchFits(cal: Calendar, r: Retention, t: Tables, picked: set<DeviceDay>, today: int, now: int)
    requires cal.Ordered() && r.Valid() && cal.Start(today) <= now
    requires IsBatch(picked, Pending(cal, t.beats, t.rollups, today), ROLLUP_BATCH)
    requires forall k :: 0 <= k < |t.incidents| ==> !t.incidents[k].Reversed()
    ensures Fits(cal, r, t, today) <==>
      forall key: DeviceDay :: key.day >= today - r.rollupDays ==>
        Figures(cal, Pass(cal, r, t, picked, today), today - r.rollupDays, now, key)
        == Figures(cal, t, today - r.rollupDays, now, key)
  {
    hide Figures, Pass, Pending;
    var oldest := today - r.rollupDays;
    var pending := Pending(cal, t.beats, t.rollups, today);
    var endangered := Endangered(pending, today, r);
    BatchCoversEndangered(picked, pending, ROLLUP_BATCH, today, r);
    forall key: DeviceDay | key.day >= oldest
      ensures Figures(cal, Pass(cal, r, t, picked, today), oldest, now, key) == Figures(cal, t, oldest, now, key)
        <==> !(key in endangered && key !in picked)
    {
      LostAtKey(cal, r, t, picked, today, oldest, now, key);
    }
    if !Fits(cal, r, t, today) {
      var missed :| missed in endangered && missed !in picked;
      var kept :| kept in endangered && kept.day >= oldest;
      var lost := if kept in picked then missed else kept;
      assert kept in picked ==> NoLater(kept, missed);
      assert lost.day >= oldest && lost in endangered && lost !in picked;
    }
  }

  // ---- Whole runs ------------------------------------------------------------

  datatype Event =
    | Insert(rows: Beats)
    | Replace(incidents: seq<Incident>)
    | Maintain(today: int, picked: set<DeviceDay>)
    | Interrupt(today: int, picked: set<DeviceDay>, cut: Cut)   // a pass that a shutdown cut short

  /** The tables, every heartbeat ever recorded, and the day of the last pass. */
  datatype World = World(tables: Tables, log: Beats, today: int)

  function Step(cal: Calendar, r: Retention, w: World, e: Event): World {
    match e
    case Insert(rows) => w.(tables := w.tables.(beats := w.tables.beats + rows), log := w.log + rows)
    case Replace(incidents) => w.(tables := w.tables.(incidents := incidents))
    case Maintain(today, picked) => w.(tables := Pass(cal, r, w.tables, picked, today), today := today)
    case Interrupt(today, _, cut) => w.(tables := CutShort(cal, r, w.tables, today, cut), today := today)
  }

  /** New rows get new ids and no row arrives for a day already rolled; the clock does not go back; the backlog fits. */
  ghost predicate Admissible(cal: Calendar, r: Retention, w: World, e: Event) {
    match e
    case Insert(rows) =>
      rows.Keys !! w.log.Keys && forall id :: id in rows ==> KeyOf(cal, rows[id]) !in w.tables.rollups
    case Replace(_) => true
    case Maintain(today, picked) =>
      && w.today <= today
      && IsBatch(picked, Pending(cal, w.tables.beats, w.tables.rollups, today), ROLLUP_BATCH)
      && Fits(cal, r, w.tables, today)
    case Interrupt(today, picked, cut) =>
      && w.today <= today
      && IsBatch(picked, Pending(cal, w.tables.beats, w.tables.rollups, today), ROLLUP_BATCH)
      && CanCut(cal, r, w.tables, picked, today, cut)
      && (cut.gone != {} ==> Fits(cal, r, w.tables, today))
  }

  function Run(cal: Calendar, r: Retention, w: World, es: seq<Event>): World
    decreases es
  {
    if es == [] then w else Run(cal, r, Step(cal, r, w, es[0]), es[1..])
  }

  ghost predicate AdmissibleRun(cal: Calendar, r: Retention, w: World, es: seq<Event>)
    decreases es
  {
    es == [] || (Admissible(cal, r, w, es[0]) && AdmissibleRun(cal, r, Step(cal, r, w, es[0]), es[1..]))
  }

  ghost predicate Mirrors(w: World) {
    forall id :: id in w.tables.beats ==> id in w.log && w.tables.beats[id] == w.log[id]
  }

  /** The summary agrees with the log, and a day without a summary still has all its rows. */
  ghost predicate Faithful(cal: Calendar, r: Retention, w: World) {
    && Mirrors(w)
    && (forall key: DeviceDay :: key.day >= w.today - r.rollupDays ==> FaithfulAt(cal, w, key))
  }

  ghost predicate FaithfulAt(cal: Calendar, w: World, key: DeviceDay) {
    if key in w.tables.rollups then w.tables.rollups[key].checks == Tally(cal, w.log, key)
    else RowsOf(cal, w.tables.beats, key) == RowsOf(cal, w.log, key)
  }

  lemma InsertKeepsFaithfulAt(cal: Calendar, r: Retention, w: World, rows: Beats, key: DeviceDay)
    requires Mirrors(w) && FaithfulAt(cal, w, key) && Admissible(cal, r, w, Insert(rows))
    ensures FaithfulAt(cal, Step(cal, r, w, Insert(rows)), key)
  {
    var w' := Step(cal, r, w, Insert(rows));
    forall id
      ensures id in RowsOf(cal, w'.log, key) <==> id in RowsOf(cal, w.log, key) || id in RowsOf(cal, rows, key)
    {}
    if key in w.tables.rollups {
      forall id ensures id !in RowsOf(cal, rows, key) {}
      SameRowsSameTally(cal, w.log, w'.log, key);
    } else {
      forall id
        ensures id in RowsOf(cal, w'.tables.beats, key)
          <==> id in RowsOf(cal, w.tables.beats, key) || id in RowsOf(cal, rows, key)
      {}
    }
  }

  /** A day that is neither in the batch nor out of the window has no rows old enough to be deleted. */
  lemma NothingLost(cal: Calendar, r: Retention, t: Tables, picked: set<DeviceDay>, today: int, key: DeviceDay)
    requires cal.Ordered() && r.Valid() && Fits(cal, r, t, today)
    requires IsBatch(picked, Pending(cal, t.beats, t.rollups, today), ROLLUP_BATCH)
    requires key !in picked && key !in t.rollups && key.day >= today - r.rollupDays
    ensures key.day < today - r.rawDays ==> RowsOf(cal, t.beats, key) == {}
  {
    PendingMeans(cal, t.beats, t.rollups, today, key);
    BatchCoversEndangered(picked, Pending(cal, t.beats, t.rollups, today), ROLLUP_BATCH, today, r);
  }

  lemma PassKeepsFaithfulAt(cal: Calendar, r: Retention, w: World, today: int, picked: set<DeviceDay>, key: DeviceDay)
    requires cal.Ordered() && r.Valid() && Admissible(cal, r, w, Maintain(today, picked))
    requires Mirrors(w) && FaithfulAt(cal, w, key) && key.day >= today - r.rollupDays
    ensures FaithfulAt(cal, Step(cal, r, w, Maintain(today, picked)), key)
  {
    hide RowsOf, Tally, Pending, IsBatch, Fits;
    var t := w.tables;
    RollupsAfterPass(cal, r, t, picked, today, key);
    if key !in t.rollups {
      SameRowsSameTally(cal, t.beats, w.log, key);
      if key !in picked {
        NothingLost(cal, r, t, picked, today, key);
        RowsAfterPrune(cal, t.beats, today - r.rawDays, key);
      }
    }
  }

  /** The rows of a day that some deleted rows were not of. */
  lemma OtherRowsStay(cal: Calendar, beats: Beats, gone: set<int>, first: int, key: DeviceDay)
    requires cal.Ordered() && gone <= Older(beats, cal.Start(first))
    requires gone != {} && key.day < first ==> RowsOf(cal, beats, key) == {}
    ensures RowsOf(cal, beats - gone, key) == RowsOf(cal, beats, key)
  {
    forall id ensures id in RowsOf(cal, beats - gone, key) <==> id in RowsOf(cal, beats, key) {
      if id in gone {
        cal.DayOrder(beats[id].at, first);
      }
    }
  }

  /** The rollups of the window after a pass cut short, key by key. */
  lemma RollupsAfterCut(cal: Calendar, r: Retention, t: Tables, picked: set<DeviceDay>, today: int, cut: Cut, key: DeviceDay)
    requires IsBatch(picked, Pending(cal, t.beats, t.rollups, today), ROLLUP_BATCH)
    requires cut.done <= picked && key.day >= today - r.rollupDays
    ensures var t' := CutShort(cal, r, t, today, cut);
      && (key in t'.rollups <==> key in t.rollups || key in cut.done)
      && (key in t.rollups ==> t'.rollups[key] == t.rollups[key])
      && (key !in t.rollups && key in t'.rollups ==> t'.rollups[key] == Summary(cal, t, key))
  {
  }

  /** A shutdown in the middle of a pass is harmless. */
  lemma CutKeepsFaithfulAt(cal: Calendar, r: Retention, w: World, today: int, picked: set<DeviceDay>, cut: Cut, key: DeviceDay)
    requires cal.Ordered() && r.Valid() && Admissible(cal, r, w, Interrupt(today, picked, cut))
    requires Mirrors(w) && FaithfulAt(cal, w, key) && key.day >= today - r.rollupDays
    ensures FaithfulAt(cal, Step(cal, r, w, Interrupt(today, picked, cut)), key)
  {
    hide RowsOf, Tally, Older, Pending, IsBatch, Fits;
    var t := w.tables;
    RollupsAfterCut(cal, r, t, picked, today, cut, key);
    if key !in t.rollups {
      SameRowsSameTally(cal, t.beats, w.log, key);
      if key !in cut.done {
        if cut.gone != {} {
          NothingLost(cal, r, t, picked, today, key);
        }
        OtherRowsStay(cal, t.beats, cut.gone, today - r.rawDays, key);
      }
    }
  }

  lemma StepKeepsFaithful(cal: Calendar, r: Retention, w: World, e: Event)
    requires cal.Ordered() && r.Valid() && Faithful(cal, r, w) && Admissible(cal, r, w, e)
    ensures Faithful(cal, r, Step(cal, r, w, e))
  {
    var w' := Step(cal, r, w, e);
    forall key: DeviceDay | key.day >= w'.today - r.rollupDays
      ensures FaithfulAt(cal, w', key)
    {
      match e
      case Replace(_) =>
        assert FaithfulAt(cal, w, key);
      case Insert(rows) => InsertKeepsFaithfulAt(cal, r, w, rows, key);
      case Maintain(today, picked) => PassKeepsFaithfulAt(cal, r, w, today, picked, key);
      case Interrupt(today, picked, cut) => CutKeepsFaithfulAt(cal, r, w, today, picked, cut, key);
    }
  }

  lemma {:induction false} RunKeepsFaithful(cal: Calendar, r: Retention, w: World, es: seq<Event>)
    requires cal.Ordered() && r.Valid() && Faithful(cal, r, w) && AdmissibleRun(cal, r, w, es)
    ensures Faithful(cal, r, Run(cal, r, w, es))
    decreases es
  {
    if es != [] {
      StepKeepsFaithful(cal, r, w, es[0]);
      RunKeepsFaithful(cal, r, Step(cal, r, w, es[0]), es[1..]);
    }
  }

  /**
    Over any run of inserts, incident changes and maintenance passes, finished or cut short by
    a shutdown, from an empty database, every device-day inside the rollup window is reported with exactly the
    checks ever recorded for it.
  */
  lemma EveryCheckIsReported(cal: Calendar, r: Retention, start: int, es: seq<Event>, key: DeviceDay)
    requires cal.Ordered() && r.Valid()
    requires AdmissibleRun(cal, r, World(Tables(map[], map[], []), map[], start), es)
    ensures var w := Run(cal, r, World(Tables(map[], map[], []), map[], start), es);
      key.day >= w.today - r.rollupDays ==> ReportedChecks(cal, w.tables, key) == Tally(cal, w.log, key)
  {
    var w0 := World(Tables(map[], map[], []), map[], start);
    assert Faithful(cal, r, w0);
    RunKeepsFaithful(cal, r, w0, es);
    var w := Run(cal, r, w0, es);
    if key.day >= w.today - r.rollupDays && key !in w.tables.rollups {
      assert FaithfulAt(cal, w, key);
      SameRowsSameTally(cal, w.tables.beats, w.log, key);
    }
  }

  // ---- Backlogs --------------------------------------------------------------

  function DevicesOnDay(n: nat, day: int): (keys: set<DeviceDay>)
    ensures |keys| == n
    ensures forall k :: k in keys <==> 0 <= k.device < n && k.day == day
  {
    if n == 0 then {} else DevicesOnDay(n - 1, day) + {DeviceDay(n - 1, day)}
  }

  /** One check of each of 501 devices, sixteen days ago. */
  function Crowd(cal: Calendar): Tables {
    Tables(map id | 0 <= id <= ROLLUP_BATCH :: Beat(id, true, 4, cal.Start(0)), map[], [])
  }

  lemma CrowdIsPending(cal: Calendar, r: Retention)
    requires cal.Ordered() && r == Retention(14, 400)
    ensures var pending := Pending(cal, Crowd(cal).beats, map[], 16);
      |pending| == ROLLUP_BATCH + 1 && Endangered(pending, 16, r) == pending && forall k :: k in pending ==> k.day == 0
  {
    var t := Crowd(cal);
    var pending := Pending(cal, t.beats, map[], 16);
    var keys := DevicesOnDay(ROLLUP_BATCH + 1, 0);
    OneDayPerSecond(cal, cal.Start(0), 0);
    forall k | k in keys ensures k in pending {
      assert k.device in RowsOf(cal, t.beats, k);
      PendingMeans(cal, t.beats, map[], 16, k);
    }
    forall k | k in pending ensures k in keys {
      var id :| id in t.beats && KeyOf(cal, t.beats[id]) == k;
    }
    assert pending == keys;
  }

  /** Of the days of the rollup window on day 16, `lost` was shown with one check and is gone, and the others are as before. */
  ghost predicate LosesOnly(cal: Calendar, t: Tables, t': Tables, now: int, lost: DeviceDay) {
    var first := 16 - 400;
    && Figures(cal, t, first, now, lost) == Some((Checks(1, 1), 0))
    && lost.day >= first
    && forall key: DeviceDay :: key.day >= first ==>
         Figures(cal, t', first, now, key) == if key == lost then None else Figures(cal, t, first, now, key)
  }

  /** One too many for the batch: whichever 500 a pass picks, one device loses the only day it has, and nothing else changes. */
  lemma OversizedBacklogLosesHistory(cal: Calendar, r: Retention, picked: set<DeviceDay>, now: int)
    requires cal.Ordered() && r == Retention(14, 400) && cal.Start(16) <= now
    requires IsBatch(picked, Pending(cal, Crowd(cal).beats, map[], 16), ROLLUP_BATCH)
    ensures var t := Crowd(cal);
      var t' := Pass(cal, r, t, picked, 16);
      exists lost: DeviceDay :: LosesOnly(cal, t, t', now, lost)
  {
    hide Figures, Pass, Pending, IsBatch;
    var t := Crowd(cal);
    var pending := Pending(cal, t.beats, map[], 16);
    CrowdIsPending(cal, r);
    var lost := LeftOut(picked, pending);
    CrowdShows(cal, lost, now);
    forall key: DeviceDay | key.day >= 16 - 400
      ensures Figures(cal, Pass(cal, r, t, picked, 16), 16 - 400, now, key)
           == if key == lost then None else Figures(cal, t, 16 - 400, now, key)
    {
      PassAtKey(cal, r, t, picked, 16, 16 - 400, now, key);
    }
    assert LosesOnly(cal, t, Pass(cal, r, t, picked, 16), now, lost);
  }

  /** The one element a batch of all but one leaves out. */
  lemma LeftOut(picked: set<DeviceDay>, pending: set<DeviceDay>) returns (lost: DeviceDay)
    requires IsBatch(picked, pending, ROLLUP_BATCH) && |pending| == ROLLUP_BATCH + 1
    ensures lost in pending && forall k :: k in pending ==> (k in picked <==> k != lost)
  {
    var rest := pending - picked;
    assert pending == picked + rest;
    assert rest != {};
    lost :| lost in rest;
    assert |rest - {lost}| == 0;
    assert rest == {lost} + (rest - {lost}) == {lost};
  }

  lemma CrowdShows(cal: Calendar, key: DeviceDay, now: int)
    requires cal.Ordered() && key in Pending(cal, Crowd(cal).beats, map[], 16)
    ensures Figures(cal, Crowd(cal), 16 - 400, now, key) == Some((Checks(1, 1), 0))
  {
    var beats := Crowd(cal).beats;
    var id :| id in beats && KeyOf(cal, beats[id]) == key;
    assert RowsOf(cal, beats, key) == {id};
    assert UpRows(beats, {id}) == {id};
  }

  /** With raw rows kept no longer than rollups, a pass leaves pending only what it did not pick and did not delete. */
  lemma PendingAfterPass(cal: Calendar, r: Retention, t: Tables, picked: set<DeviceDay>, today: int, p: DeviceDay)
    requires cal.Ordered() && r.Valid() && r.rawDays <= r.rollupDays
    requires IsBatch(picked, Pending(cal, t.beats, t.rollups, today), ROLLUP_BATCH)
    ensures var t' := Pass(cal, r, t, picked, today);
      p in Pending(cal, t'.beats, t'.rollups, today)
      <==> p in Pending(cal, t.beats, t.rollups, today) && p !in picked && p.day >= today - r.rawDays
  {
    var t' := Pass(cal, r, t, picked, today);
    RollupsAfterPass(cal, r, t, picked, today, p);
    RowsAfterPrune(cal, t.beats, today - r.rawDays, p);
    PendingMeans(cal, t.beats, t.rollups, today, p);
    PendingMeans(cal, t'.beats, t'.rollups, today, p);
  }

  /** Each pass works off at least a full batch, or everything. */
  lemma PassShrinksBacklog(cal: Calendar, r: Retention, t: Tables, picked: set<DeviceDay>, today: int)
    requires cal.Ordered() && r.Valid() && r.rawDays <= r.rollupDays
    requires IsBatch(picked, Pending(cal, t.beats, t.rollups, today), ROLLUP_BATCH)
    ensures var t' := Pass(cal, r, t, picked, today);
      var n := |Pending(cal, t.beats, t.rollups, today)|;
      |Pending(cal, t'.beats, t'.rollups, today)| <= n - Min(ROLLUP_BATCH, n)
  {
    var t' := Pass(cal, r, t, picked, today);
    var before, after := Pending(cal, t.beats, t.rollups, today), Pending(cal, t'.beats, t'.rollups, today);
    forall p
      ensures p in after ==> p in before && p !in picked
    {
      PendingAfterPass(cal, r, t, picked, today, p);
    }
    BatchLeaves(picked, before, ROLLUP_BATCH, after);
  }

  function Passes(cal: Calendar, r: Retention, t: Tables, batches: seq<set<DeviceDay>>, today: int): Tables
    decreases batches
  {
    if batches == [] then t else Passes(cal, r, Pass(cal, r, t, batches[0], today), batches[1..], today)
  }

  ghost predicate AreBatches(cal: Calendar, r: Retention, t: Tables, batches: seq<set<DeviceDay>>, today: int)
    decreases batches
  {
    batches == [] ||
    (IsBatch(batches[0], Pending(cal, t.beats, t.rollups, today), ROLLUP_BATCH) &&
     AreBatches(cal, r, Pass(cal, r, t, batches[0], today), batches[1..], today))
  }

  /** However large the backlog, enough passes clear it, even if the clock stands still. */
  lemma {:induction false} CatchUpTerminates(cal: Calendar, r: Retention, t: Tables, batches: seq<set<DeviceDay>>, today: int)
    requires cal.Ordered() && r.Valid() && r.rawDays <= r.rollupDays
    requires AreBatches(cal, r, t, batches, today)
    requires |Pending(cal, t.beats, t.rollups, today)| <= ROLLUP_BATCH * |batches|
    ensures var t' := Passes(cal, r, t, batches, today);
      Pending(cal, t'.beats, t'.rollups, today) == {}
    decreases batches
  {
    if batches != [] {
      PassShrinksBacklog(cal, r, t, batches[0], today);
      CatchUpTerminates(cal, r, Pass(cal, r, t, batches[0], today), batches[1..], today);
    }
  }

  /** What a pass leaves of one pending day, whatever the retention. */
  lemma StillPending(cal: Calendar, r: Retention, t: Tables, picked: set<DeviceDay>, today: int, p: DeviceDay)
    requires cal.Ordered()
    requires IsBatch(picked, Pending(cal, t.beats, t.rollups, today), ROLLUP_BATCH)
    requires p in Pending(cal, t.beats, t.rollups, today)
    ensures var t' := Pass(cal, r, t, picked, today);
      p in Pending(cal, t'.beats, t'.rollups, today)
      <==> p.day >= today - r.rawDays && (p !in picked || p.day < today - r.rollupDays)
  {
    var t' := Pass(cal, r, t, picked, today);
    RollupsAfterPass(cal, r, t, picked, today, p);
    RowsAfterPrune(cal, t.beats, today - r.rawDays, p);
    PendingMeans(cal, t.beats, t.rollups, today, p);
    PendingMeans(cal, t'.beats, t'.rollups, today, p);
  }

  /**
    Raw rows kept longer than rollups can stall it: a full batch of days too old for a
    rollup but not yet deleted is picked again on every pass, and nothing is summarised.
  */
  lemma BacklogStallsWhenRawOutlivesRollups(cal: Calendar, r: Retention, t: Tables, picked: set<DeviceDay>, today: int,
                                            pending: set<DeviceDay>)
    requires cal.Ordered() && pending == Pending(cal, t.beats, t.rollups, today)
    requires IsBatch(picked, pending, ROLLUP_BATCH)
    requires forall p :: p in pending ==> p.day >= today - r.rawDays
    requires |Expired(pending, today - r.rollupDays)| >= ROLLUP_BATCH
    ensures Summaries(cal, t, picked, today - r.rollupDays) == map[]
    ensures var t' := Pass(cal, r, t, picked, today);
      pending <= Pending(cal, t'.beats, t'.rollups, today)
  {
    hide Pending, IsBatch, Pass;
    var t' := Pass(cal, r, t, picked, today);
    BatchIsExpired(picked, pending, ROLLUP_BATCH, today - r.rollupDays);
    NothingCollected(picked, today - r.rollupDays, Summarizer(cal, t));
    forall p | p in pending
      ensures p in Pending(cal, t'.beats, t'.rollups, today)
    {
      StillPending(cal, r, t, picked, today, p);
    }
  }

  /** A rolled day is never picked again, so a pass never corrects an earlier summary: it keeps it or prunes it. */
  lemma SummariesAreNeverRevised(cal: Calendar, r: Retention, t: Tables, picked: set<DeviceDay>, today: int, key: DeviceDay)
    requires IsBatch(picked, Pending(cal, t.beats, t.rollups, today), ROLLUP_BATCH)
    requires key in t.rollups
    ensures key !in picked
    ensures key in Pass(cal, r, t, picked, today).rollups <==> key.day >= today - r.rollupDays
    ensures key in Pass(cal, r, t, picked, today).rollups ==> Pass(cal, r, t, picked, today).rollups[key] == t.rollups[key]
  {
    RollupsAfterPass(cal, r, t, picked, today, key);
  }
}
