/** The latency chart: one device's checks in a window, thinned into buckets of equal width. */
module Series {
  import opened Base
  import opened Heartbeats

  const DEFAULT_MAX_POINTS := 1000
  const MAX_SERIES_POINTS := 5000

  datatype Sample = Sample(at: int, maxLatency: int, checks: nat, downs: nat)

  /** The part of the table one query looks at, and how wide its buckets are. */
  datatype Window = Window(device: int, first: int, last: int, width: int)
  {
    predicate Proper() { width >= 1 }

    predicate Has(b: Beat) { b.device == device && first <= b.at <= last }

    function BucketOf(b: Beat): int
      requires Proper()
    {
      (b.at - first) / width
    }

    /** One more than the number of the last bucket. */
    function Buckets(): nat
      requires Proper()
    {
      if last < first then 0 else (last - first) / width + 1
    }
  }

  function Points(maxPoints: int): (n: int)
    ensures 1 <= n <= 5000
    ensures maxPoints <= 0 ==> n == 1000
    ensures maxPoints >= 1 ==> n <= maxPoints && (n == maxPoints || n == 5000)
  {
    if maxPoints <= 0 then DEFAULT_MAX_POINTS else if maxPoints > MAX_SERIES_POINTS then MAX_SERIES_POINTS else maxPoints
  }

  function WindowOf(device: int, first: int, last: int, maxPoints: int): (w: Window)
    ensures w.Proper()
  {
    Window(device, first, last, Max(1, (last - first) / Points(maxPoints)))
  }

  // ---- Groups --------------------------------------------------------------------

  function InWindow(w: Window): Beat -> bool { (b: Beat) => w.Has(b) }

  function InBucket(w: Window, k: int): Beat -> bool
    requires w.Proper()
  {
    (b: Beat) => w.Has(b) && w.BucketOf(b) == k
  }

  function Below(w: Window, k: int): Beat -> bool
    requires w.Proper()
  {
    (b: Beat) => w.Has(b) && w.BucketOf(b) < k
  }

  function Downs(rows: seq<Beat>): nat { |Filter(rows, (b: Beat) => !b.up)| }

  function Earliest(rows: seq<Beat>): int
    requires rows != []
  {
    if |rows| == 1 then rows[0].at else Min(Earliest(rows[..|rows| - 1]), rows[|rows| - 1].at)
  }

  function Slowest(rows: seq<Beat>): int
    requires rows != []
  {
    if |rows| == 1 then rows[0].latency else Max(Slowest(rows[..|rows| - 1]), rows[|rows| - 1].latency)
  }

  /** The aggregates of one group of rows. */
  function SampleOf(group: seq<Beat>): Sample
    requires group != []
  {
    Sample(Earliest(group), Slowest(group), |group|, Downs(group))
  }

  /** A group without rows is no group. */
  function Row(group: seq<Beat>): seq<Sample> {
    if group == [] then [] else [SampleOf(group)]
  }

  /** The samples of the first `k` buckets that have any rows. */
  function Samples(w: Window, rows: seq<Beat>, k: nat): seq<Sample>
    requires w.Proper()
  {
    if k == 0 then []
    else
      Samples(w, rows, k - 1) + Row(Filter(rows, InBucket(w, k - 1)))
  }

  method HeartbeatSeries(rows: seq<Beat>, device: int, first: int, last: int, maxPoints: int) returns (out: seq<Sample>)
    ensures var w := WindowOf(device, first, last, maxPoints); out == Samples(w, rows, w.Buckets())
  {
    hide Filter, SampleOf, Window.BucketOf;
    var points := maxPoints;
    if points <= 0 {
      points := DEFAULT_MAX_POINTS;
    }
    if points > MAX_SERIES_POINTS {
      points := MAX_SERIES_POINTS;
    }
    var width := (last - first) / points;
    if width < 1 {
      width := 1;
    }
    var w := Window(device, first, last, width);
    out := [];
    for k := 0 to w.Buckets()
      invariant out == Samples(w, rows, k)
    {
      var group := Filter(rows, InBucket(w, k));
      if group != [] {
        out := out + [SampleOf(group)];
      }
    }
  }

  // ---- Conservation --------------------------------------------------------------

  function Checks(out: seq<Sample>): nat {
    if out == [] then 0 else Checks(out[..|out| - 1]) + out[|out| - 1].checks
  }

  function AllDowns(out: seq<Sample>): nat {
    if out == [] then 0 else AllDowns(out[..|out| - 1]) + out[|out| - 1].downs
  }

  function Peak(out: seq<Sample>): int
    requires out != []
  {
    if |out| == 1 then out[0].maxLatency else Max(Peak(out[..|out| - 1]), out[|out| - 1].maxLatency)
  }

  /** Rows split two ways: nothing lost and nothing counted twice. */
  lemma {:induction false} FilterSplits(rows: seq<Beat>, p: Beat -> bool, q: Beat -> bool, both: Beat -> bool)
    requires forall b :: both(b) <==> p(b) || q(b)
    requires forall b :: !(p(b) && q(b))
    ensures |Filter(rows, both)| == |Filter(rows, p)| + |Filter(rows, q)|
    ensures Downs(Filter(rows, both)) == Downs(Filter(rows, p)) + Downs(Filter(rows, q))
  {
    if rows != [] {
      FilterSplits(rows[1..], p, q, both);
      var down := (b: Beat) => !b.up;
      forall r: Beat -> bool {
        FilterConcat(if r(rows[0]) then [rows[0]] else [], Filter(rows[1..], r), down);
      }
    }
  }

  lemma NothingBelowTheFirst(w: Window, rows: seq<Beat>)
    requires w.Proper()
    ensures Filter(rows, Below(w, 0)) == []
    ensures Counted(w, rows, 0)
  {
    assert forall b :: !Below(w, 0)(b);
    assert forall b :: b !in Filter(rows, Below(w, 0));
  }

  lemma SplitAtBucket(w: Window, rows: seq<Beat>, k: nat)
    requires w.Proper()
    ensures var more, less, group := Filter(rows, Below(w, k + 1)), Filter(rows, Below(w, k)), Filter(rows, InBucket(w, k));
      |more| == |less| + |group| && Downs(more) == Downs(less) + Downs(group)
  {
    FilterSplits(rows, Below(w, k), InBucket(w, k), Below(w, k + 1));
  }

  lemma TotalsOfMore(out: seq<Sample>, group: seq<Beat>)
    ensures Checks(out + Row(group)) == Checks(out) + |group|
    ensures AllDowns(out + Row(group)) == AllDowns(out) + Downs(group)
  {
    if group == [] {
      assert out + [] == out;
    } else {
      assert (out + Row(group))[..|out|] == out;
    }
  }

  ghost predicate Counted(w: Window, rows: seq<Beat>, k: nat)
    requires w.Proper()
  {
    var out, below := Samples(w, rows, k), Filter(rows, Below(w, k));
    Checks(out) == |below| && AllDowns(out) == Downs(below)
  }

  lemma NextBucketIsCounted(w: Window, rows: seq<Beat>, k: nat)
    requires w.Proper() && Counted(w, rows, k)
    ensures Counted(w, rows, k + 1)
  {
    hide Window.BucketOf, Checks, AllDowns, Downs, Filter, Row;
    SplitAtBucket(w, rows, k);
    TotalsOfMore(Samples(w, rows, k), Filter(rows, InBucket(w, k)));
  }

  /** Until bucket `k`, the samples count every row exactly once. */
  lemma {:induction false} CountsSoFar(w: Window, rows: seq<Beat>, k: nat)
    requires w.Proper()
    ensures Counted(w, rows, k)
  {
    hide Counted;
    if k == 0 {
      NothingBelowTheFirst(w, rows);
    } else {
      CountsSoFar(w, rows, k - 1);
      NextBucketIsCounted(w, rows, k - 1);
    }
  }

  lemma LastBucket(w: Window, at: int)
    requires w.Proper() && w.first <= at <= w.last
    ensures 0 <= (at - w.first) / w.width < w.Buckets()
  {
    Floors(at - w.first, w.last - w.first, w.width);
  }

  lemma Floors(a: nat, b: nat, d: int)
    requires d >= 1 && a <= b
    ensures 0 <= a / d <= b / d
  {
    Quotient(a, d, a / d);
    Quotient(b, d, a / d);
  }

  /** What a quotient is: the largest multiple that fits. */
  lemma Quotient(n: nat, d: int, k: int)
    requires d >= 1
    ensures k * d <= n <==> k <= n / d
  {
    var q := n / d;
    assert n == q * d + n % d;
    if k <= q {
      Scale(k, q, d);
    } else {
      Scale(q + 1, k, d);
    }
  }

  lemma Scale(a: int, b: int, d: int)
    requires a <= b && d >= 0
    ensures a * d <= b * d
  {
    assert (b - a) * d >= 0;
  }

  lemma {:induction false} SameFilter(rows: seq<Beat>, p: Beat -> bool, q: Beat -> bool)
    requires forall b :: p(b) == q(b)
    ensures Filter(rows, p) == Filter(rows, q)
  {
    if rows != [] {
      SameFilter(rows[1..], p, q);
    }
  }

  /** The checks and failures of the buckets add up to the rows and the failed rows of the window. */
  lemma SeriesConserves(w: Window, rows: seq<Beat>)
    requires w.Proper()
    ensures Checks(Samples(w, rows, w.Buckets())) == |Filter(rows, InWindow(w))|
    ensures AllDowns(Samples(w, rows, w.Buckets())) == Downs(Filter(rows, InWindow(w)))
  {
    CountsSoFar(w, rows, w.Buckets());
    forall b | w.Has(b) ensures w.BucketOf(b) < w.Buckets() {
      LastBucket(w, b.at);
    }
    SameFilter(rows, Below(w, w.Buckets()), InWindow(w));
  }

  // ---- The worst latency survives ----------------------------------------------------

  ghost predicate IsPeak(rows: seq<Beat>, p: Beat -> bool, peak: int) {
    && (exists b :: b in rows && p(b) && b.latency == peak)
    && (forall b :: b in rows && p(b) ==> b.latency <= peak)
  }

  ghost predicate Any(rows: seq<Beat>, p: Beat -> bool) { exists b :: b in rows && p(b) }

  lemma {:induction false} SlowestOf(group: seq<Beat>)
    requires group != []
    ensures exists b :: b in group && b.latency == Slowest(group)
    ensures forall b :: b in group ==> b.latency <= Slowest(group)
  {
    var n := |group| - 1;
    if n > 0 {
      SlowestOf(group[..n]);
    }
    assert group[n] in group;
    assert group == group[..n] + [group[n]];
  }

  lemma SlowestIsPeak(rows: seq<Beat>, p: Beat -> bool)
    requires Filter(rows, p) != []
    ensures IsPeak(rows, p, Slowest(Filter(rows, p)))
  {
    SlowestOf(Filter(rows, p));
  }

  lemma PeaksCombine(rows: seq<Beat>, p: Beat -> bool, q: Beat -> bool, both: Beat -> bool, a: int, b: int)
    requires forall x :: both(x) <==> p(x) || q(x)
    requires IsPeak(rows, p, a) && IsPeak(rows, q, b)
    ensures IsPeak(rows, both, Max(a, b))
  {
    var x :| x in rows && p(x) && x.latency == a;
    var y :| y in rows && q(y) && y.latency == b;
    assert both(x) && both(y);
  }

  ghost predicate PeakSoFar(w: Window, rows: seq<Beat>, k: nat)
    requires w.Proper()
  {
    var out := Samples(w, rows, k);
    if out == [] then !Any(rows, Below(w, k)) else IsPeak(rows, Below(w, k), Peak(out))
  }

  lemma BelowNext(w: Window, k: nat)
    requires w.Proper()
    ensures forall b :: Below(w, k + 1)(b) <==> Below(w, k)(b) || InBucket(w, k)(b)
  {
  }

  lemma NextPeak(w: Window, rows: seq<Beat>, k: nat)
    requires w.Proper() && PeakSoFar(w, rows, k)
    ensures PeakSoFar(w, rows, k + 1)
  {
    hide Filter, Window.BucketOf, Window.Has, Earliest, Slowest, Downs;
    var group, out := Filter(rows, InBucket(w, k)), Samples(w, rows, k);
    assert Any(rows, InBucket(w, k)) <==> group != [] by {
      if group != [] {
        assert group[0] in group;
      }
    }
    BelowNext(w, k);
    if group == [] {
      assert Samples(w, rows, k + 1) == out;
    } else {
      SlowestIsPeak(rows, InBucket(w, k));
      var more := out + [SampleOf(group)];
      assert more[..|out|] == out;
      if out != [] {
        PeaksCombine(rows, Below(w, k), InBucket(w, k), Below(w, k + 1), Peak(out), Slowest(group));
      }
    }
  }

  lemma NoPeakYet(w: Window, rows: seq<Beat>)
    requires w.Proper()
    ensures PeakSoFar(w, rows, 0)
  {
    assert forall b :: !Below(w, 0)(b);
  }

  lemma {:induction false} PeaksSoFar(w: Window, rows: seq<Beat>, k: nat)
    requires w.Proper()
    ensures PeakSoFar(w, rows, k)
  {
    hide PeakSoFar;
    if k == 0 {
      NoPeakYet(w, rows);
    } else {
      PeaksSoFar(w, rows, k - 1);
      NextPeak(w, rows, k - 1);
    }
  }

  /** A single slow probe stays visible: the largest latency over the buckets is that over the rows. */
  lemma SeriesKeepsThePeak(w: Window, rows: seq<Beat>)
    requires w.Proper()
    ensures var out := Samples(w, rows, w.Buckets());
      if out == [] then !Any(rows, InWindow(w)) else IsPeak(rows, InWindow(w), Peak(out))
  {
    PeaksSoFar(w, rows, w.Buckets());
    forall b | w.Has(b) ensures Below(w, w.Buckets())(b) {
      LastBucket(w, b.at);
    }
    assert forall b :: InWindow(w)(b) <==> Below(w, w.Buckets())(b);
  }

  // ---- Order and number of the buckets -------------------------------------------------

  function NumberOf(w: Window, s: Sample): int
    requires w.Proper()
  {
    (s.at - w.first) / w.width
  }

  ghost predicate InOrder(w: Window, out: seq<Sample>)
    requires w.Proper()
  {
    && (forall j :: 0 <= j < |out| ==> w.first <= out[j].at <= w.last)
    && (forall i, j :: 0 <= i < j < |out| ==> NumberOf(w, out[i]) < NumberOf(w, out[j]))
  }

  lemma {:induction false} EarliestOf(group: seq<Beat>)
    requires group != []
    ensures exists b :: b in group && b.at == Earliest(group)
  {
    var n := |group| - 1;
    if n > 0 {
      EarliestOf(group[..n]);
    }
    assert group[n] in group;
    assert group == group[..n] + [group[n]];
  }

  // ---- What each bucket says --------------------------------------------------------

  /** Row `i` is a check of the device in the window, and falls in bucket `b`. */
  predicate FallsIn(w: Window, rows: seq<Beat>, b: int, i: int)
    requires w.Proper()
  {
    0 <= i < |rows| && rows[i].device == w.device && w.first <= rows[i].at <= w.last && (rows[i].at - w.first) / w.width == b
  }

  /** The earliest time, the largest latency, the number of checks and that of failures in bucket `b`. */
  ghost predicate Describes(w: Window, rows: seq<Beat>, s: Sample, b: int)
    requires w.Proper()
  {
    && (exists i :: FallsIn(w, rows, b, i) && rows[i].at == s.at)
    && (exists i :: FallsIn(w, rows, b, i) && rows[i].latency == s.maxLatency)
    && (forall i :: FallsIn(w, rows, b, i) ==> s.at <= rows[i].at && rows[i].latency <= s.maxLatency)
    && s.checks == |set i | 0 <= i < |rows| && FallsIn(w, rows, b, i)|
    && s.downs == |set i | 0 <= i < |rows| && FallsIn(w, rows, b, i) && !rows[i].up|
  }

  /** The places where `p` holds are as many as the elements kept. */
  lemma {:induction false} FilterCounts(rows: seq<Beat>, p: Beat -> bool)
    ensures |Filter(rows, p)| == |Places(rows, p)|
  {
    hide Filter;
    if rows == [] {
      assert Places(rows, p) == {};
    } else {
      var n := |rows| - 1;
      FilterCounts(rows[..n], p);
      assert rows == rows[..n] + [rows[n]];
      FilterConcat(rows[..n], [rows[n]], p);
      FilterOne(rows[n], p);
      OneMorePlace(rows[..n], rows[n], p);
    }
  }

  function Places(rows: seq<Beat>, p: Beat -> bool): set<int> {
    set i | 0 <= i < |rows| && p(rows[i])
  }

  lemma OneMorePlace(rows: seq<Beat>, b: Beat, p: Beat -> bool)
    ensures |Places(rows + [b], p)| == |Places(rows, p)| + if p(b) then 1 else 0
  {
    var before, after := Places(rows, p), Places(rows + [b], p);
    var more := if p(b) then before + {|rows|} else before;
    forall i ensures i in after <==> i in more {}
    assert after == more;
  }

  lemma FilterOne(b: Beat, p: Beat -> bool)
    ensures Filter([b], p) == if p(b) then [b] else []
  {
    assert [b][1..] == [];
  }

  lemma {:induction false} FilterTwice(rows: seq<Beat>, p: Beat -> bool, q: Beat -> bool, both: Beat -> bool)
    requires forall b :: both(b) <==> p(b) && q(b)
    ensures Filter(Filter(rows, p), q) == Filter(rows, both)
  {
    if rows != [] {
      FilterTwice(rows[1..], p, q, both);
      FilterConcat(if p(rows[0]) then [rows[0]] else [], Filter(rows[1..], p), q);
      FilterOne(rows[0], q);
    }
  }

  lemma {:induction false} EarliestIsFirst(group: seq<Beat>)
    requires group != []
    ensures forall b :: b in group ==> Earliest(group) <= b.at
  {
    var n := |group| - 1;
    if n > 0 {
      EarliestIsFirst(group[..n]);
    }
    assert group == group[..n] + [group[n]];
  }

  lemma GroupIsDescribed(w: Window, rows: seq<Beat>, k: int)
    requires w.Proper() && Filter(rows, InBucket(w, k)) != []
    ensures Describes(w, rows, SampleOf(Filter(rows, InBucket(w, k))), k)
  {
    hide Earliest, Slowest, Filter;
    var group := Filter(rows, InBucket(w, k));
    EarliestOf(group);
    EarliestIsFirst(group);
    SlowestOf(group);
    forall i ensures FallsIn(w, rows, k, i) <==> 0 <= i < |rows| && InBucket(w, k)(rows[i]) {}
    forall i | FallsIn(w, rows, k, i) ensures rows[i] in group {}
    forall b | b in group ensures exists i :: FallsIn(w, rows, k, i) && rows[i] == b {
      var i :| 0 <= i < |rows| && rows[i] == b;
      assert FallsIn(w, rows, k, i);
    }
    FilterCounts(rows, InBucket(w, k));
    var checks := set i | 0 <= i < |rows| && FallsIn(w, rows, k, i);
    forall i ensures i in checks <==> i in Places(rows, InBucket(w, k)) {}
    assert checks == Places(rows, InBucket(w, k));
    var down, both := (b: Beat) => !b.up, (b: Beat) => InBucket(w, k)(b) && !b.up;
    FilterTwice(rows, InBucket(w, k), down, both);
    FilterCounts(rows, both);
    var downs := set i | 0 <= i < |rows| && FallsIn(w, rows, k, i) && !rows[i].up;
    forall i ensures i in downs <==> i in Places(rows, both) {}
    assert downs == Places(rows, both);
  }

  ghost predicate HasSample(w: Window, out: seq<Sample>, b: int)
    requires w.Proper()
  {
    exists j :: 0 <= j < |out| && NumberOf(w, out[j]) == b
  }

  lemma OneMoreSample(w: Window, out: seq<Sample>, s: Sample, b: int)
    requires w.Proper() && (HasSample(w, out, b) || NumberOf(w, s) == b)
    ensures HasSample(w, out + [s], b)
  {
    if HasSample(w, out, b) {
      var j :| 0 <= j < |out| && NumberOf(w, out[j]) == b;
      assert (out + [s])[j] == out[j];
    } else {
      assert (out + [s])[|out|] == s;
    }
  }

  /** Every sample describes the bucket it is in, and every check of the window is in the bucket of a sample. */
  lemma {:induction false} EachSampleDescribesItsBucket(w: Window, rows: seq<Beat>, k: nat)
    requires w.Proper()
    ensures forall j :: 0 <= j < |Samples(w, rows, k)| ==>
      Describes(w, rows, Samples(w, rows, k)[j], NumberOf(w, Samples(w, rows, k)[j]))
    ensures forall i, b :: 0 <= b < k && FallsIn(w, rows, b, i) ==> HasSample(w, Samples(w, rows, k), b)
  {
    hide NumberOf, Describes, Window.BucketOf, Earliest, Slowest, Downs, Filter, FallsIn, HasSample;
    if k > 0 {
      EachSampleDescribesItsBucket(w, rows, k - 1);
      var group, out := Filter(rows, InBucket(w, k - 1)), Samples(w, rows, k - 1);
      if group != [] {
        GroupIsNumbered(w, rows, k - 1);
        GroupIsDescribed(w, rows, k - 1);
      } else {
        assert Samples(w, rows, k) == out;
      }
      forall i, b | 0 <= b < k && FallsIn(w, rows, b, i) ensures HasSample(w, Samples(w, rows, k), b) {
        if b == k - 1 {
          FallsInGroup(w, rows, b, i);
        }
        if group != [] {
          OneMoreSample(w, out, SampleOf(group), b);
        }
      }
    }
  }

  lemma FallsInGroup(w: Window, rows: seq<Beat>, b: int, i: int)
    requires w.Proper() && FallsIn(w, rows, b, i)
    ensures Filter(rows, InBucket(w, b)) != []
  {
    assert InBucket(w, b)(rows[i]);
  }

  predicate Numbered(w: Window, out: seq<Sample>, k: int)
    requires w.Proper()
  {
    forall s :: s in out ==> NumberOf(w, s) < k
  }

  lemma OneMoreInOrder(w: Window, out: seq<Sample>, s: Sample, k: int)
    requires w.Proper() && InOrder(w, out) && Numbered(w, out, k)
    requires w.first <= s.at <= w.last && NumberOf(w, s) == k
    ensures InOrder(w, out + [s]) && Numbered(w, out + [s], k + 1)
  {
    hide NumberOf;
    var more := out + [s];
    forall i, j | 0 <= i < j < |more| ensures NumberOf(w, more[i]) < NumberOf(w, more[j]) {
      assert more[i] in out;
    }
  }

  lemma GroupIsNumbered(w: Window, rows: seq<Beat>, k: int)
    requires w.Proper() && Filter(rows, InBucket(w, k)) != []
    ensures var s := SampleOf(Filter(rows, InBucket(w, k))); w.first <= s.at <= w.last && NumberOf(w, s) == k
  {
    hide Filter, Earliest, Slowest, Downs;
    var group := Filter(rows, InBucket(w, k));
    EarliestOf(group);
    var b :| b in group && b.at == Earliest(group);
    assert w.Has(b) && w.BucketOf(b) == k;
  }

  lemma {:induction false} SamplesSoFar(w: Window, rows: seq<Beat>, k: nat)
    requires w.Proper()
    ensures InOrder(w, Samples(w, rows, k)) && Numbered(w, Samples(w, rows, k), k)
    ensures |Samples(w, rows, k)| <= k
  {
    hide NumberOf, Window.BucketOf, Earliest, Slowest, Downs, Filter;
    if k > 0 {
      SamplesSoFar(w, rows, k - 1);
      var group, out := Filter(rows, InBucket(w, k - 1)), Samples(w, rows, k - 1);
      if group == [] {
        assert Samples(w, rows, k) == out;
      } else {
        GroupIsNumbered(w, rows, k - 1);
        OneMoreInOrder(w, out, SampleOf(group), k - 1);
      }
    }
  }

  /** At most twice the points asked for, in buckets that cover disjoint, increasing stretches of time. */
  lemma SeriesIsShortAndInOrder(rows: seq<Beat>, device: int, first: int, last: int, maxPoints: int)
    ensures var w := WindowOf(device, first, last, maxPoints);
      var out := Samples(w, rows, w.Buckets());
      |out| <= 2 * Points(maxPoints) && InOrder(w, out)
  {
    var w := WindowOf(device, first, last, maxPoints);
    SamplesSoFar(w, rows, w.Buckets());
    BucketsAreFew(device, first, last, maxPoints);
  }

  lemma BucketsAreFew(device: int, first: int, last: int, maxPoints: int)
    ensures var w := WindowOf(device, first, last, maxPoints);
      && w.Buckets() <= 2 * Points(maxPoints)
      && (w.Buckets() <= Points(maxPoints) <==> last - first < Points(maxPoints))
  {
    if first <= last {
      Halves(last - first, Points(maxPoints));
    }
  }

  lemma Halves(n: nat, m: int)
    requires m >= 1
    ensures var w := Max(1, n / m); n / w + 1 <= 2 * m && (n / w + 1 <= m <==> n < m)
  {
    var q := n / m;
    Quotient(n, m, 1);
    Quotient(n, m, q + 1);
    if n >= m {
      Scale(q + 1, 2 * q, m);
      Quotient(n, q, m);
      Quotient(n, q, 2 * m);
    }
  }

  /** One check every second from the first to the last. */
  function EverySecond(device: int, first: int, last: int): seq<Beat>
    decreases last - first
  {
    if last < first then [] else EverySecond(device, first, last - 1) + [Beat(device, true, 1, last)]
  }

  lemma {:induction false} EverySecondHas(device: int, first: int, last: int, at: int)
    requires first <= at <= last
    ensures Beat(device, true, 1, at) in EverySecond(device, first, last)
    decreases last - first
  {
    if at < last {
      EverySecondHas(device, first, last - 1, at);
    }
  }

  lemma BucketIsFilled(w: Window, k: nat)
    requires w.Proper() && k < w.Buckets()
    ensures Filter(EverySecond(w.device, w.first, w.last), InBucket(w, k)) != []
  {
    hide Filter, EverySecond;
    var at := w.first + k * w.width;
    StartsBucket(k, w.width, w.last - w.first);
    EverySecondHas(w.device, w.first, w.last, at);
    var b := Beat(w.device, true, 1, at);
    assert w.BucketOf(b) == k && w.Has(b);
    assert InBucket(w, k)(b);
  }

  lemma {:induction false} NoBucketIsEmpty(w: Window, k: nat)
    requires w.Proper() && k <= w.Buckets()
    ensures |Samples(w, EverySecond(w.device, w.first, w.last), k)| == k
  {
    hide Window.BucketOf, Window.Buckets, Filter, EverySecond, Earliest, Slowest, Downs;
    if k > 0 {
      NoBucketIsEmpty(w, k - 1);
      BucketIsFilled(w, k - 1);
    }
  }

  lemma StartsBucket(j: nat, width: int, n: nat)
    requires width >= 1 && j <= n / width
    ensures 0 <= j * width && j * width <= n && (j * width) / width == j
  {
    Quotient(n, width, j);
    Quotient(j * width, width, j);
    Quotient(j * width, width, j + 1);
  }

  /**
    "At most maxPoints" is true exactly of windows shorter than that many seconds: one second
    more, with a check every second, already gives too many buckets.
  */
  lemma AtMostMaxPointsIff(device: int, first: int, last: int, maxPoints: int)
    ensures var w := WindowOf(device, first, last, maxPoints);
      (forall rows :: |Samples(w, rows, w.Buckets())| <= Points(maxPoints)) <==> last - first < Points(maxPoints)
  {
    var w := WindowOf(device, first, last, maxPoints);
    BucketsAreFew(device, first, last, maxPoints);
    forall rows ensures |Samples(w, rows, w.Buckets())| <= w.Buckets() {
      SamplesSoFar(w, rows, w.Buckets());
    }
    NoBucketIsEmpty(w, w.Buckets());
  }

  lemma BucketsOfTwice(device: int, first: int, last: int, m: int)
    requires 1 <= m <= MAX_SERIES_POINTS && last - first == 2 * m - 1
    ensures var w := WindowOf(device, first, last, m); w == Window(device, first, last, 1) && w.Buckets() == 2 * m
  {
    Quotient(2 * m - 1, m, 1);
    Quotient(2 * m - 1, m, 2);
  }

  /** The bound of twice the points is reached: a window of 2 * m - 1 seconds has 2 * m buckets. */
  lemma TwiceThePointsIsReached(device: int, first: int, last: int, m: int)
    requires 1 <= m <= MAX_SERIES_POINTS && last - first == 2 * m - 1
    ensures var w := WindowOf(device, first, last, m);
      |Samples(w, EverySecond(device, first, last), w.Buckets())| == 2 * m
  {
    BucketsOfTwice(device, first, last, m);
    var w := WindowOf(device, first, last, m);
    NoBucketIsEmpty(w, w.Buckets());
  }
}
