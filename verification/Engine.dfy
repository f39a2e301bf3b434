/**
  The engine as a whole: probes, restarts, recorded heartbeats and maintenance passes in one
  run, over one set of tables.
*/
module Engine {
  import opened Base
  import opened Calendar
  import opened Heartbeats
  import opened Incidents
  import opened Downtime
  import opened Model
  import opened Outages
  import H = History
  import L = Lifecycle

  /** Live state, history, and the last probe time of each device; both halves see one incident table. */
  datatype Whole = Whole(live: L.World, history: H.World, seen: map<int, int>)

  datatype Event =
    | Probe(eff: Option<Effective>, res: Result, reminder: int, now: int)
    | Restart
    | Insert(rows: Beats)
    | Maintain(today: int, picked: set<DeviceDay>)
    | Interrupt(today: int, picked: set<DeviceDay>, cut: H.Cut)

  function Oldest(r: H.Retention, today: int): int { today - r.rollupDays }

  /** What an event does to the live half: a finished pass forgets old incidents. */
  function LiveEvent(cal: Calendar, r: H.Retention, e: Event): Option<L.Event> {
    match e
    case Probe(eff, res, reminder, now) => Some(L.Probe(eff, res, reminder, now))
    case Restart => Some(L.Restart)
    case Insert(_) => None
    case Maintain(today, _) => Some(L.Retain(cal.Start(Oldest(r, today))))
    case Interrupt(_, _, _) => None
  }

  function LiveAfter(cal: Calendar, r: H.Retention, w: Whole, e: Event): L.World {
    match LiveEvent(cal, r, e)
    case Some(le) => L.After(w.live, le)
    case None => w.live
  }

  function HistoryEvent(cal: Calendar, r: H.Retention, w: Whole, e: Event): H.Event {
    match e
    case Insert(rows) => H.Insert(rows)
    case Maintain(today, picked) => H.Maintain(today, picked)
    case Interrupt(today, picked, cut) => H.Interrupt(today, picked, cut)
    case _ => H.Replace(LiveAfter(cal, r, w, e).incidents)
  }

  function Step(cal: Calendar, r: H.Retention, w: Whole, e: Event): Whole {
    Whole(LiveAfter(cal, r, w, e),
          H.Step(cal, r, w.history, HistoryEvent(cal, r, w, e)),
          if e.Probe? && e.eff.Some? then w.seen[e.res.device := e.res.at] else w.seen)
  }

  function Run(cal: Calendar, r: H.Retention, w: Whole, es: seq<Event>): Whole
    decreases es
  {
    if es == [] then w else Run(cal, r, Step(cal, r, w, es[0]), es[1..])
  }

  /** No probe result arrives for a day that is already summarised, or out of order. */
  ghost predicate InTime(cal: Calendar, w: Whole, res: Result) {
    && res.device in w.live.rows
    && (res.device in w.seen ==> w.seen[res.device] <= res.at)
    && (forall key :: key in w.history.tables.rollups && key.device == res.device ==> cal.Start(key.day + 1) <= res.at)
  }

  /** The device's figure for that day can no longer change. */
  predicate SettledDay(cal: Calendar, w: Whole, key: DeviceDay) {
    key.device in w.live.rows && Settled(L.SnapOf(w.live, key.device), cal.Start(key.day + 1))
  }

  ghost predicate Admissible(cal: Calendar, r: H.Retention, w: Whole, e: Event) {
    && H.Admissible(cal, r, w.history, HistoryEvent(cal, r, w, e))
    && match e
       case Probe(eff, res, _, _) => eff.Some? ==> InTime(cal, w, res)
       case Maintain(today, picked) => forall key :: key in picked && key.day >= Oldest(r, today) ==> SettledDay(cal, w, key)
       case Interrupt(today, _, cut) => forall key :: key in cut.done && key.day >= Oldest(r, today) ==> SettledDay(cal, w, key)
       case _ => true
  }

  ghost predicate AdmissibleRun(cal: Calendar, r: H.Retention, w: Whole, es: seq<Event>)
    decreases es
  {
    es == [] || (Admissible(cal, r, w, es[0]) && AdmissibleRun(cal, r, Step(cal, r, w, es[0]), es[1..]))
  }

  // ---- What every step keeps -----------------------------------------------------

  /** The summary of a day says what the incident table says, and will go on saying it. */
  ghost predicate ExactAt(cal: Calendar, w: Whole, key: DeviceDay) {
    key in w.history.tables.rollups ==>
      && SettledDay(cal, w, key)
      && w.history.tables.rollups[key].downtime == DowntimeForDay(cal, w.live.incidents, key.device, key.day)
  }

  ghost predicate Sound(cal: Calendar, r: H.Retention, w: Whole) {
    && w.history.tables.incidents == w.live.incidents
    && L.Consistent(w.live) && Timely(w.live, w.seen)
    && H.Faithful(cal, r, w.history)
    && (forall key: DeviceDay :: key.day >= Oldest(r, w.history.today) ==> ExactAt(cal, w, key))
  }

  /** One live event leaves the figure of a settled day alone. */
  lemma LiveKeepsExactAt(cal: Calendar, w: Whole, e: L.Event, key: DeviceDay)
    requires cal.Ordered() && L.Consistent(w.live) && SettledDay(cal, w, key)
    requires Later(w.live, [e], key.device, cal.Start(key.day), cal.Start(key.day + 1))
    ensures var live := L.After(w.live, e);
      && key.device in live.rows
      && Settled(L.SnapOf(live, key.device), cal.Start(key.day + 1))
      && DowntimeForDay(cal, live.incidents, key.device, key.day) == DowntimeForDay(cal, w.live.incidents, key.device, key.day)
  {
    StepKeepsFigure(w.live, e, key.device, cal.Start(key.day), cal.Start(key.day + 1));
    L.StepKeepsConsistent(w.live, e);
  }

  lemma ProbeOrRestartKeepsExactAt(cal: Calendar, r: H.Retention, w: Whole, e: Event, key: DeviceDay)
    requires cal.Ordered() && Sound(cal, r, w) && Admissible(cal, r, w, e) && (e.Probe? || e.Restart?)
    requires ExactAt(cal, w, key)
    ensures ExactAt(cal, Step(cal, r, w, e), key)
  {
    if key in w.history.tables.rollups {
      LiveKeepsExactAt(cal, w, LiveEvent(cal, r, e).value, key);
    }
  }

  lemma MaintainKeepsExactAt(cal: Calendar, r: H.Retention, w: Whole, today: int, picked: set<DeviceDay>, key: DeviceDay)
    requires cal.Ordered() && Sound(cal, r, w) && Admissible(cal, r, w, Maintain(today, picked))
    requires key.day >= Oldest(r, today) && ExactAt(cal, w, key)
    ensures ExactAt(cal, Step(cal, r, w, Maintain(today, picked)), key)
  {
    hide H.Pass, H.IsBatch, H.Pending, H.Fits, DowntimeForDay;
    H.RollupsAfterPass(cal, r, w.history.tables, picked, today, key);
    if key in w.history.tables.rollups || key in picked {
      assert Oldest(r, today) < key.day ==> cal.Start(Oldest(r, today)) < cal.Start(key.day);
      LiveKeepsExactAt(cal, w, L.Retain(cal.Start(Oldest(r, today))), key);
    }
  }

  lemma InterruptKeepsExactAt(cal: Calendar, r: H.Retention, w: Whole, today: int, picked: set<DeviceDay>, cut: H.Cut, key: DeviceDay)
    requires cal.Ordered() && Sound(cal, r, w) && Admissible(cal, r, w, Interrupt(today, picked, cut))
    requires key.day >= Oldest(r, today) && ExactAt(cal, w, key)
    ensures ExactAt(cal, Step(cal, r, w, Interrupt(today, picked, cut)), key)
  {
    hide H.CutShort, H.IsBatch, H.Pending, H.Fits, DowntimeForDay;
    H.RollupsAfterCut(cal, r, w.history.tables, picked, today, cut, key);
  }

  lemma StepKeepsExact(cal: Calendar, r: H.Retention, w: Whole, e: Event, key: DeviceDay)
    requires cal.Ordered() && Sound(cal, r, w) && Admissible(cal, r, w, e)
    requires key.day >= Oldest(r, Step(cal, r, w, e).history.today)
    ensures ExactAt(cal, Step(cal, r, w, e), key)
  {
    assert ExactAt(cal, w, key);
    match e
    case Probe(_, _, _, _) => ProbeOrRestartKeepsExactAt(cal, r, w, e, key);
    case Restart => ProbeOrRestartKeepsExactAt(cal, r, w, e, key);
    case Insert(_) =>
    case Maintain(today, picked) => MaintainKeepsExactAt(cal, r, w, today, picked, key);
    case Interrupt(today, picked, cut) => InterruptKeepsExactAt(cal, r, w, today, picked, cut, key);
  }

  lemma StepKeepsLive(cal: Calendar, r: H.Retention, w: Whole, e: Event)
    requires Sound(cal, r, w) && Admissible(cal, r, w, e)
    ensures var w' := Step(cal, r, w, e);
      L.Consistent(w'.live) && Timely(w'.live, w'.seen) && w'.history.tables.incidents == w'.live.incidents
  {
    if LiveEvent(cal, r, e).Some? {
      var le := LiveEvent(cal, r, e).value;
      L.StepKeepsConsistent(w.live, le);
      StepKeepsTimely(w.live, w.seen, le);
    }
  }

  lemma StepKeepsSound(cal: Calendar, r: H.Retention, w: Whole, e: Event)
    requires cal.Ordered() && r.Valid() && Sound(cal, r, w) && Admissible(cal, r, w, e)
    ensures Sound(cal, r, Step(cal, r, w, e))
  {
    var w' := Step(cal, r, w, e);
    StepKeepsLive(cal, r, w, e);
    H.StepKeepsFaithful(cal, r, w.history, HistoryEvent(cal, r, w, e));
    forall key: DeviceDay | key.day >= Oldest(r, w'.history.today) ensures ExactAt(cal, w', key) {
      StepKeepsExact(cal, r, w, e, key);
    }
  }

  lemma {:induction false} RunKeepsSound(cal: Calendar, r: H.Retention, w: Whole, es: seq<Event>)
    requires cal.Ordered() && r.Valid() && Sound(cal, r, w) && AdmissibleRun(cal, r, w, es)
    ensures Sound(cal, r, Run(cal, r, w, es))
    decreases es
  {
    if es != [] {
      StepKeepsSound(cal, r, w, es[0]);
      RunKeepsSound(cal, r, Step(cal, r, w, es[0]), es[1..]);
    }
  }

  /** No history yet, over live state that is in order. */
  ghost predicate Fresh(w: Whole) {
    && w.history.tables == H.Tables(map[], map[], w.live.incidents) && w.history.log == map[]
    && L.Consistent(w.live) && Timely(w.live, w.seen)
  }

  /**
    What a day must be shown with: the checks on the log that fall between its midnights, those
    of them that succeeded, and its seconds down on the incident table.
  */
  ghost function Truth(cal: Calendar, w: Whole, key: DeviceDay): (Checks, int) {
    var log, lo, hi := w.history.log, cal.Start(key.day), cal.Start(key.day + 1);
    var on := set id | id in log && log[id].device == key.device && lo <= log[id].at < hi;
    var up := set id | id in on && log[id].up;
    (Checks(|on|, |up|), |DownSeconds(w.live.incidents, key.device, lo, hi)|)
  }

  ghost predicate ShownExactly(cal: Calendar, w: Whole, first: int, now: int, key: DeviceDay) {
    var shown := H.Figures(cal, w.history.tables, first, now, key);
    && (RowsOf(cal, w.history.log, key) != {} ==> shown.Some?)
    && (shown.Some? ==> shown.value == Truth(cal, w, key))
  }

  /**
    Over any run in which each device-day is summarised only once it is settled: every finished
    day of the window that has checks is shown, with exactly the checks ever recorded for it and
    exactly the seconds the device was down that day - before and after the day was summarised
    and its raw rows were deleted, across restarts, retention and passes cut short.
  */
  lemma HistoryIsExact(cal: Calendar, r: H.Retention, start: Whole, es: seq<Event>, first: int, now: int, key: DeviceDay)
    requires cal.Ordered() && r.Valid() && Fresh(start) && AdmissibleRun(cal, r, start, es)
    requires Oldest(r, Run(cal, r, start, es).history.today) <= first <= key.day && cal.Start(key.day + 1) <= now
    ensures ShownExactly(cal, Run(cal, r, start, es), first, now, key)
  {
    assert Sound(cal, r, start);
    RunKeepsSound(cal, r, start, es);
    var w := Run(cal, r, start, es);
    SoundShows(cal, r, w, first, now, key);
  }

  lemma SoundShows(cal: Calendar, r: H.Retention, w: Whole, first: int, now: int, key: DeviceDay)
    requires cal.Ordered() && Sound(cal, r, w)
    requires Oldest(r, w.history.today) <= first <= key.day && cal.Start(key.day + 1) <= now
    ensures ShownExactly(cal, w, first, now, key)
  {
    hide DowntimeForDay, LoopSum, Tally, RowsOf, DownSeconds;
    TallyCounts(cal, w.history.log, key);
    var t := w.history.tables;
    assert H.FaithfulAt(cal, w.history, key) && ExactAt(cal, w, key);
    DowntimeIsSecondsDown(cal, w.live.incidents, key.device, key.day);
    if key !in t.rollups {
      SameRowsSameTally(cal, t.beats, w.history.log, key);
      LoopAgreesWithQuery(cal, t.incidents, first, now, key.device, key.day);
    }
  }
}
