/**
  Downtime per device-day, computed twice by the program: by one clip-and-sum
  query over the incident table, and by a loop that walks every incident over the
  days it touches.
*/
module Downtime {
  import opened Base
  import opened Calendar
  import opened Incidents

  // ---- The query -----------------------------------------------------------

  predicate Selected(i: Incident, device: int, lo: int, hi: int) {
    i.device == device && i.started < hi && i.resolved.GetOr(hi) > lo
  }

  function QueryShare(i: Incident, device: int, lo: int, hi: int): int {
    if Selected(i, device, lo, hi)
    then Min(i.resolved.GetOr(hi), hi) - Max(i.started, lo)
    else 0
  }

  function QuerySum(rows: seq<Incident>, device: int, lo: int, hi: int): int {
    if rows == [] then 0
    else QueryShare(rows[0], device, lo, hi) + QuerySum(rows[1..], device, lo, hi)
  }

  /** Seconds of downtime the incident table attributes to one local day. */
  function DowntimeForDay(cal: Calendar, rows: seq<Incident>, device: int, day: int): (seconds: nat) {
    var sum := QuerySum(rows, device, cal.Start(day), cal.Start(day + 1));
    if sum < 0 then 0 else sum
  }

  // ---- The day-splitting loop ----------------------------------------------

  function At(out: map<DeviceDay, int>, key: DeviceDay): int {
    if key in out then out[key] else 0
  }

  /** What is left of [from, until) inside [lo, hi). */
  function Overlap(from: int, until: int, lo: int, hi: int): int {
    Max(0, Min(until, hi) - Max(from, lo))
  }

  /** One incident's seconds on one day, seen from `now` and clipped at `cutoff`. */
  function LoopShare(cal: Calendar, i: Incident, cutoff: int, now: int, device: int, day: int): int {
    if i.device == device && i.resolved.GetOr(cutoff) >= cutoff
    then Overlap(Max(i.started, cutoff), i.resolved.GetOr(now), cal.Start(day), cal.Start(day + 1))
    else 0
  }

  function LoopSum(cal: Calendar, rows: seq<Incident>, cutoff: int, now: int, device: int, day: int): int {
    if rows == [] then 0
    else LoopShare(cal, rows[0], cutoff, now, device, day) + LoopSum(cal, rows[1..], cutoff, now, device, day)
  }

  lemma {:induction false} LoopSumAppend(cal: Calendar, rows: seq<Incident>, i: Incident,
                                         cutoff: int, now: int, device: int, day: int)
    ensures LoopSum(cal, rows + [i], cutoff, now, device, day)
         == LoopSum(cal, rows, cutoff, now, device, day) + LoopShare(cal, i, cutoff, now, device, day)
  {
    if rows == [] {
      assert rows + [i] == [i];
    } else {
      assert (rows + [i])[1..] == rows[1..] + [i];
      LoopSumAppend(cal, rows[1..], i, cutoff, now, device, day);
    }
  }

  /** What one already clipped incident adds to one cell of the table. */
  function Part(cal: Calendar, device: int, from: int, until: int, key: DeviceDay): int {
    if key.device == device then Overlap(from, until, cal.Start(key.day), cal.Start(key.day + 1)) else 0
  }

  /** Adds one incident, day by day, to the table being built. */
  method AddIncident(cal: Calendar, device: int, from: int, until: int, before: map<DeviceDay, int>)
    returns (out: map<DeviceDay, int>)
    requires cal.Ordered()
    ensures forall key :: At(out, key) == At(before, key) + Part(cal, device, from, until, key)
  {
    out := before;
    var day := cal.DayOf(from);
    var first := day;
    while cal.Start(day) < until
      invariant first <= day
      invariant forall key {:trigger At(out, key)} :: At(out, key)
                 == At(before, key) + (if first <= key.day < day then Part(cal, device, from, until, key) else 0)
      decreases until - cal.Start(day)
    {
      ghost var prev := out;
      var lo, hi := cal.Start(day), cal.Start(day + 1);
      if from > lo {
        lo := from;
      }
      if until < hi {
        hi := until;
      }
      if hi > lo {
        out := out[DeviceDay(device, day) := At(out, DeviceDay(device, day)) + (hi - lo)];
      }
      assert hi - lo <= 0 ==> Part(cal, device, from, until, DeviceDay(device, day)) == 0;
      forall key: DeviceDay
        ensures At(out, key) == At(prev, key) + (if key.day == day then Part(cal, device, from, until, key) else 0)
      {
        assert key.device == device && key.day == day ==> key == DeviceDay(device, day);
      }
      day := day + 1;
    }
    forall key: DeviceDay | !(first <= key.day < day)
      ensures Part(cal, device, from, until, key) == 0
    {
      assert key.day + 1 < first ==> cal.Start(key.day + 1) < cal.Start(first);
      assert day < key.day ==> cal.Start(day) < cal.Start(key.day);
    }
  }

  /** Clips every incident that reaches past `cutoff` to local days and sums per device-day. */
  method DowntimeByDay(cal: Calendar, rows: seq<Incident>, devices: set<int>, cutoff: int, now: int)
    returns (out: map<DeviceDay, int>)
    requires cal.Ordered()
    ensures forall device, day :: device in devices ==>
      At(out, DeviceDay(device, day)) == LoopSum(cal, rows, cutoff, now, device, day)
  {
    out := map[];
    for n := 0 to |rows|
      invariant forall device, day :: device in devices ==>
        At(out, DeviceDay(device, day)) == LoopSum(cal, rows[..n], cutoff, now, device, day)
    {
      var i := rows[n];
      var before := out;
      if i.device in devices && (i.resolved.None? || i.resolved.value >= cutoff) {
        var from := if i.started < cutoff then cutoff else i.started;
        out := AddIncident(cal, i.device, from, i.resolved.GetOr(now), out);
      }
      forall device, day | device in devices
        ensures At(out, DeviceDay(device, day)) == LoopSum(cal, rows[..n + 1], cutoff, now, device, day)
      {
        assert rows[..n + 1] == rows[..n] + [i];
        LoopSumAppend(cal, rows[..n], i, cutoff, now, device, day);
        assert At(out, DeviceDay(device, day)) == At(before, DeviceDay(device, day)) + LoopShare(cal, i, cutoff, now, device, day);
      }
    }
    assert rows[..|rows|] == rows;
  }

  lemma {:induction false} QuerySumAppend(rows: seq<Incident>, i: Incident, device: int, lo: int, hi: int)
    ensures QuerySum(rows + [i], device, lo, hi) == QuerySum(rows, device, lo, hi) + QueryShare(i, device, lo, hi)
  {
    if rows == [] {
      assert rows + [i] == [i];
    } else {
      assert (rows + [i])[1..] == rows[1..] + [i];
      QuerySumAppend(rows[1..], i, device, lo, hi);
    }
  }

  /** Rows that contribute the same, one by one, add up to the same. */
  lemma {:induction false} SameShares(a: seq<Incident>, b: seq<Incident>, device: int, lo: int, hi: int)
    requires |a| == |b|
    requires forall k :: 0 <= k < |a| ==> QueryShare(a[k], device, lo, hi) == QueryShare(b[k], device, lo, hi)
    ensures QuerySum(a, device, lo, hi) == QuerySum(b, device, lo, hi)
  {
    if a != [] {
      SameShares(a[1..], b[1..], device, lo, hi);
    }
  }

  // ---- The two agree ---------------------------------------------------------

  /** An incident resolved before it started, with both ends inside the day. */
  predicate ReversedInside(i: Incident, device: int, lo: int, hi: int) {
    i.device == device && i.Reversed() && lo < i.resolved.value && i.started < hi
  }

  lemma SharesCompare(cal: Calendar, i: Incident, first: int, now: int, device: int, day: int)
    requires cal.Ordered() && first <= day && cal.Start(day + 1) <= now
    ensures var q := QueryShare(i, device, cal.Start(day), cal.Start(day + 1));
      var l := LoopShare(cal, i, cal.Start(first), now, device, day);
      l >= 0 && if ReversedInside(i, device, cal.Start(day), cal.Start(day + 1)) then q < 0 && l == 0 else q == l
  {
    assert first < day ==> cal.Start(first) < cal.Start(day);
    assert cal.Start(day) < cal.Start(day + 1);
  }

  lemma {:induction false} SumsCompare(cal: Calendar, rows: seq<Incident>, first: int, now: int, device: int, day: int)
    requires cal.Ordered() && first <= day && cal.Start(day + 1) <= now
    ensures var q := QuerySum(rows, device, cal.Start(day), cal.Start(day + 1));
      var l := LoopSum(cal, rows, cal.Start(first), now, device, day);
      0 <= l && q <= l &&
      (q == l <==> forall k :: 0 <= k < |rows| ==> !ReversedInside(rows[k], device, cal.Start(day), cal.Start(day + 1)))
  {
    if rows != [] {
      SharesCompare(cal, rows[0], first, now, device, day);
      SumsCompare(cal, rows[1..], first, now, device, day);
      forall k | 0 <= k < |rows[1..]| ensures rows[1..][k] == rows[k + 1] {}
      if exists k :: 0 <= k < |rows| && ReversedInside(rows[k], device, cal.Start(day), cal.Start(day + 1)) {
        var k :| 0 <= k < |rows| && ReversedInside(rows[k], device, cal.Start(day), cal.Start(day + 1));
        assert k > 0 ==> rows[1..][k - 1] == rows[k];
      }
    }
  }

  lemma ShareIsZero(cal: Calendar, i: Incident, first: int, now: int, device: int, day: int)
    requires cal.Ordered() && first <= day && cal.Start(day + 1) <= now
    ensures LoopShare(cal, i, cal.Start(first), now, device, day) == 0
      <==> forall t :: cal.Start(day) <= t < cal.Start(day + 1) ==> !i.Covers(device, t)
  {
    assert first < day ==> cal.Start(first) < cal.Start(day);
    if i.device == device {
      assert i.Covers(device, Max(i.started, cal.Start(day)))
        <==> i.resolved.None? || Max(i.started, cal.Start(day)) < i.resolved.value;
    }
  }

  /** The loop finds nothing exactly when the device was down at no second of the day. */
  lemma {:induction false} LoopIsZero(cal: Calendar, rows: seq<Incident>, first: int, now: int, device: int, day: int)
    requires cal.Ordered() && first <= day && cal.Start(day + 1) <= now
    ensures LoopSum(cal, rows, cal.Start(first), now, device, day) == 0
      <==> forall t :: cal.Start(day) <= t < cal.Start(day + 1) ==> !Down(rows, device, t)
  {
    if rows != [] {
      LoopIsZero(cal, rows[1..], first, now, device, day);
      ShareIsZero(cal, rows[0], first, now, device, day);
      SumsCompare(cal, rows[1..], first, now, device, day);
      SharesCompare(cal, rows[0], first, now, device, day);
      forall t ensures Down(rows, device, t) <==> rows[0].Covers(device, t) || Down(rows[1..], device, t) {
        DownSplits(rows, device, t);
      }
    }
  }

  /**
    For any finished day at or after the cutoff, the loop and the query report the
    same seconds exactly when no incident of the device was resolved before it
    started inside that day, or the device was down at no second of it.
  */
  lemma LoopAgreesWithQuery(cal: Calendar, rows: seq<Incident>, first: int, now: int, device: int, day: int)
    requires cal.Ordered() && first <= day && cal.Start(day + 1) <= now
    ensures LoopSum(cal, rows, cal.Start(first), now, device, day) == DowntimeForDay(cal, rows, device, day)
      <==> (forall t :: cal.Start(day) <= t < cal.Start(day + 1) ==> !Down(rows, device, t))
           || (forall k :: 0 <= k < |rows| ==> !ReversedInside(rows[k], device, cal.Start(day), cal.Start(day + 1)))
  {
    hide LoopSum, QuerySum, Down, ReversedInside;
    SumsCompare(cal, rows, first, now, device, day);
    LoopIsZero(cal, rows, first, now, device, day);
  }

  /** A clock set back by 100 seconds inside a day makes the two disagree. */
  lemma ClockSetBackDisagrees(cal: Calendar)
    requires cal.Start(0) == 0 && cal.Start(1) == 86400
    ensures var rows := [
        Incident(1, 7, 1000, 1000, Some(3000), Some(2000), "", false, false, None),
        Incident(2, 7, 5000, 5000, Some(4900), Some(-100), "", false, false, None)];
      LoopSum(cal, rows, cal.Start(0), 86400, 7, 0) == 2000 && DowntimeForDay(cal, rows, 7, 0) == 1900
  {
    var a := Incident(1, 7, 1000, 1000, Some(3000), Some(2000), "", false, false, None);
    var b := Incident(2, 7, 5000, 5000, Some(4900), Some(-100), "", false, false, None);
    assert [a, b][1..] == [b] && [b][1..] == [];
    assert LoopShare(cal, a, 0, 86400, 7, 0) == 2000 && LoopShare(cal, b, 0, 86400, 7, 0) == 0;
    assert QueryShare(a, 7, 0, 86400) == 2000 && QueryShare(b, 7, 0, 86400) == -100;
    assert LoopSum(cal, [b], 0, 86400, 7, 0) == 0 && QuerySum([b], 7, 0, 86400) == -100;
  }

  // ---- Splitting loses and invents nothing -----------------------------------

  /** An incident's seconds over the `n` days from `first`. */
  function Spread(cal: Calendar, i: Incident, cutoff: int, now: int, first: int, n: nat): int {
    if n == 0 then 0
    else Spread(cal, i, cutoff, now, first, n - 1) + LoopShare(cal, i, cutoff, now, i.device, first + n - 1)
  }

  lemma {:induction false} SpreadTelescopes(cal: Calendar, i: Incident, now: int, first: int, n: nat)
    requires cal.Ordered()
    requires i.resolved.GetOr(now) >= i.started
    ensures Spread(cal, i, cal.Start(first), now, first, n)
         == Max(0, Min(i.resolved.GetOr(now), cal.Start(first + n)) - Max(i.started, cal.Start(first)))
  {
    if n > 0 {
      SpreadTelescopes(cal, i, now, first, n - 1);
      assert cal.Start(first + n - 1) < cal.Start(first + n);
      assert n > 1 ==> cal.Start(first) < cal.Start(first + n - 1);
    }
  }

  /** The days of the window add up to the incident's own length, clipped at the cutoff. */
  lemma DaysAddUpToDuration(cal: Calendar, i: Incident, now: int, first: int, n: nat)
    requires cal.Ordered()
    requires i.resolved.GetOr(now) >= i.started
    requires i.resolved.GetOr(now) <= cal.Start(first + n)
    ensures Spread(cal, i, cal.Start(first), now, first, n)
         == Max(0, i.resolved.GetOr(now) - Max(i.started, cal.Start(first)))
  {
    SpreadTelescopes(cal, i, now, first, n);
  }

  // ---- What the figure means -------------------------------------------------

  function Covering(rows: seq<Incident>, device: int, t: int): nat {
    if rows == [] then 0
    else (if rows[0].Covers(device, t) then 1 else 0) + Covering(rows[1..], device, t)
  }

  /** Over the seconds of [lo, hi): how many incidents cover each, added up. */
  function CoverSum(rows: seq<Incident>, device: int, lo: int, hi: int): nat
    decreases hi - lo
  {
    if hi <= lo then 0 else Covering(rows, device, hi - 1) + CoverSum(rows, device, lo, hi - 1)
  }

  ghost predicate Down(rows: seq<Incident>, device: int, t: int) {
    exists k :: 0 <= k < |rows| && rows[k].Covers(device, t)
  }

  /** The seconds of [lo, hi) at which the device was down. */
  ghost function DownSeconds(rows: seq<Incident>, device: int, lo: int, hi: int): set<int> {
    set t | lo <= t < hi && Down(rows, device, t)
  }

  lemma {:induction false} CoverSumOfOne(i: Incident, device: int, lo: int, hi: int, full: int)
    requires !i.Reversed() && hi <= full
    ensures CoverSum([i], device, lo, hi)
         == if i.device == device then Overlap(i.started, i.resolved.GetOr(full), lo, hi) else 0
    decreases hi - lo
  {
    if lo < hi {
      CoverSumOfOne(i, device, lo, hi - 1, full);
      assert Covering([i], device, hi - 1) == if i.Covers(device, hi - 1) then 1 else 0 by {
        assert [i][1..] == [];
      }
    }
  }

  lemma {:induction false} CoverSumSplit(rows: seq<Incident>, device: int, lo: int, hi: int)
    requires rows != []
    ensures CoverSum(rows, device, lo, hi)
         == CoverSum([rows[0]], device, lo, hi) + CoverSum(rows[1..], device, lo, hi)
    decreases hi - lo
  {
    if lo < hi {
      CoverSumSplit(rows, device, lo, hi - 1);
      assert Covering([rows[0]], device, hi - 1) == if rows[0].Covers(device, hi - 1) then 1 else 0 by {
        assert [rows[0]][1..] == [];
      }
    }
  }

  lemma {:induction false} QuerySumIsCoverSum(rows: seq<Incident>, device: int, lo: int, hi: int)
    requires forall k :: 0 <= k < |rows| ==> !rows[k].Reversed()
    requires lo <= hi
    ensures QuerySum(rows, device, lo, hi) == CoverSum(rows, device, lo, hi)
  {
    if rows == [] {
      NothingCovered(device, lo, hi);
    } else {
      CoverSumOfOne(rows[0], device, lo, hi, hi);
      CoverSumSplit(rows, device, lo, hi);
      QuerySumIsCoverSum(rows[1..], device, lo, hi);
    }
  }

  lemma {:induction false} NothingCovered(device: int, lo: int, hi: int)
    ensures CoverSum([], device, lo, hi) == 0
    decreases hi - lo
  {
    if lo < hi {
      NothingCovered(device, lo, hi - 1);
    }
  }

  lemma DownSplits(rows: seq<Incident>, device: int, t: int)
    requires rows != []
    ensures Down(rows, device, t) <==> rows[0].Covers(device, t) || Down(rows[1..], device, t)
  {
    if Down(rows[1..], device, t) {
      var k :| 0 <= k < |rows[1..]| && rows[1..][k].Covers(device, t);
      assert rows[k + 1].Covers(device, t);
    }
    if Down(rows, device, t) {
      var k :| 0 <= k < |rows| && rows[k].Covers(device, t);
      assert k > 0 ==> rows[1..][k - 1] == rows[k];
    }
  }

  lemma {:induction false} AtMostOneCovers(rows: seq<Incident>, device: int, t: int)
    requires Chronological(rows)
    ensures Covering(rows, device, t) == if Down(rows, device, t) then 1 else 0
  {
    if rows != [] {
      forall k | 0 <= k < |rows[1..]|
        ensures rows[1..][k] == rows[k + 1] && Precedes(rows[0], rows[1..][k])
      {
        assert Precedes(rows[0], rows[k + 1]);
      }
      DownSplits(rows, device, t);
      AtMostOneCovers(rows[1..], device, t);
    }
  }

  lemma {:induction false} CoverSumCountsSeconds(rows: seq<Incident>, device: int, lo: int, hi: int)
    requires Chronological(rows)
    ensures CoverSum(rows, device, lo, hi) == |DownSeconds(rows, device, lo, hi)| <= Max(0, hi - lo)
    decreases hi - lo
  {
    if hi <= lo {
      assert DownSeconds(rows, device, lo, hi) == {};
    } else {
      AtMostOneCovers(rows, device, hi - 1);
      CoverSumCountsSeconds(rows, device, lo, hi - 1);
      var rest := DownSeconds(rows, device, lo, hi - 1);
      assert DownSeconds(rows, device, lo, hi)
          == if Down(rows, device, hi - 1) then rest + {hi - 1} else rest;
    }
  }

  /**
    On a chronological incident log the figure for a day is the number of seconds
    of that day at which the device was down, so it never exceeds the day's length.
  */
  lemma DowntimeIsSecondsDown(cal: Calendar, rows: seq<Incident>, device: int, day: int)
    requires cal.Ordered()
    requires Chronological(rows)
    ensures DowntimeForDay(cal, rows, device, day) == |DownSeconds(rows, device, cal.Start(day), cal.Start(day + 1))|
    ensures DowntimeForDay(cal, rows, device, day) <= cal.Start(day + 1) - cal.Start(day)
  {
    var lo, hi := cal.Start(day), cal.Start(day + 1);
    QuerySumIsCoverSum(rows, device, lo, hi);
    CoverSumCountsSeconds(rows, device, lo, hi);
  }

  lemma {:induction false} LoopIsQuerySoFar(cal: Calendar, rows: seq<Incident>, cutoff: int, now: int, device: int, day: int)
    requires cal.Ordered() && cutoff <= cal.Start(day) < now
    requires forall k :: 0 <= k < |rows| ==> !rows[k].Reversed() && rows[k].resolved.GetOr(now) <= now
    ensures LoopSum(cal, rows, cutoff, now, device, day)
         == QuerySum(rows, device, cal.Start(day), Min(now, cal.Start(day + 1)))
  {
    if rows != [] {
      LoopIsQuerySoFar(cal, rows[1..], cutoff, now, device, day);
    }
  }

  /** The loop, which also shows the day that is not over: the seconds down that day until now. */
  lemma LoopIsSecondsDown(cal: Calendar, rows: seq<Incident>, cutoff: int, now: int, device: int, day: int)
    requires cal.Ordered() && Chronological(rows) && cutoff <= cal.Start(day) < now
    requires forall k :: 0 <= k < |rows| ==> rows[k].resolved.GetOr(now) <= now
    ensures LoopSum(cal, rows, cutoff, now, device, day)
         == |DownSeconds(rows, device, cal.Start(day), Min(now, cal.Start(day + 1)))|
  {
    var lo, hi := cal.Start(day), Min(now, cal.Start(day + 1));
    LoopIsQuerySoFar(cal, rows, cutoff, now, device, day);
    QuerySumIsCoverSum(rows, device, lo, hi);
    CoverSumCountsSeconds(rows, device, lo, hi);
  }

  // ---- Retention of the incident table ---------------------------------------

  /** Incidents that ended before a day began never counted towards that day. */
  lemma {:induction false} RetentionKeepsQuery(rows: seq<Incident>, device: int, before: int, lo: int, hi: int)
    requires before <= lo
    ensures QuerySum(Retained(rows, before), device, lo, hi) == QuerySum(rows, device, lo, hi)
  {
    if rows != [] {
      RetentionKeepsQuery(rows[1..], device, before, lo, hi);
      var tail := Retained(rows[1..], before);
      assert ([rows[0]] + tail)[1..] == tail;
    }
  }

  lemma {:induction false} RetentionKeepsLoop(cal: Calendar, rows: seq<Incident>, device: int, oldest: int, day: int,
                                              cutoff: int, now: int)
    requires cal.Start(oldest) <= cutoff
    ensures LoopSum(cal, Retained(rows, cal.Start(oldest)), cutoff, now, device, day)
         == LoopSum(cal, rows, cutoff, now, device, day)
  {
    if rows != [] {
      RetentionKeepsLoop(cal, rows[1..], device, oldest, day, cutoff, now);
      var tail := Retained(rows[1..], cal.Start(oldest));
      assert ([rows[0]] + tail)[1..] == tail;
    }
  }
}
