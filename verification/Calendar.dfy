/**
  Local calendar days. `Start(d)` is the first second of local day `d` and `DayOf(t)`
  the day that holds second `t`. Nothing is assumed except that midnights come in
  order, so a day may last 23, 24, 25 or any other positive number of hours. Days are
  numbered in date order, which is also the order of the zero-padded dates the program
  uses as keys.
*/
module Calendar {

  datatype Calendar = Calendar(midnights: int -> int, days: int -> int) {

    function Start(d: int): int { midnights(d) }

    function DayOf(t: int): int { days(t) }

    ghost predicate Ordered() {
      && (forall d, e :: d < e ==> Start(d) < Start(e))
      && (forall t :: Start(DayOf(t)) <= t < Start(DayOf(t) + 1))
    }

    /** Comparing instants with a midnight and comparing days is the same thing. */
    lemma DayOrder(t: int, d: int)
      requires Ordered()
      ensures DayOf(t) < d <==> t < Start(d)
    {
      var e := DayOf(t);
      assert e + 1 < d ==> Start(e + 1) < Start(d);
      assert d < e ==> Start(d) < Start(e);
    }
  }

  /** One device on one local day, the key of every daily figure. */
  datatype DeviceDay = DeviceDay(device: int, day: int)

  ghost predicate Increasing(f: int -> int) {
    forall d, e :: d < e ==> f(d) < f(e)
  }

  function Search(f: int -> int, t: int, from: int): (d: int)
    requires Increasing(f)
    ensures f(d) <= t < f(d + 1)
    decreases t < f(from), if t < f(from) then f(from) - t else t - f(from)
  {
    if t < f(from) then Search(f, t, from - 1)
    else if f(from + 1) <= t then Search(f, t, from + 1)
    else from
  }

  function FromMidnights(f: int -> int): (cal: Calendar)
    requires Increasing(f)
    ensures cal.midnights == f && cal.Ordered()
  {
    Calendar(f, (t: int) => Search(f, t, 0))
  }

  /** Every increasing sequence of midnights makes a calendar, and puts each second on one day only. */
  lemma OneDayPerSecond(cal: Calendar, t: int, d: int)
    requires cal.Ordered()
    ensures cal.Start(d) <= t < cal.Start(d + 1) <==> cal.DayOf(t) == d
  {
    cal.DayOrder(t, d);
    cal.DayOrder(t, d + 1);
  }
}
