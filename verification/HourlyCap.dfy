/** The hourly mail cap: one notice says that mail has stopped, the rest is withheld. */
module HourlyCap {
  import opened Base

  const WINDOW := 3600

  /** An outbox row; `notice` marks the mail that says the cap was reached. */
  datatype Row = Row(created: int, notice: bool)

  datatype Verdict = Queued | Withheld | Noticed | Unaddressed

  datatype Mailer = Mailer(outbox: seq<Row>, throttled: Option<int>)

  /** Rows of a stretch of the outbox created in [lo, hi). */
  function CountIn(rows: seq<Row>, lo: int, hi: int): nat {
    if rows == [] then 0
    else
      var n := |rows| - 1;
      CountIn(rows[..n], lo, hi) + if lo <= rows[n].created < hi then 1 else 0
  }

  function NoticesIn(rows: seq<Row>, lo: int, hi: int): nat {
    if rows == [] then 0
    else
      var n := |rows| - 1;
      NoticesIn(rows[..n], lo, hi) + if rows[n].notice && lo <= rows[n].created < hi then 1 else 0
  }

  /** How many mails were queued at or after `since`. */
  function SentSince(rows: seq<Row>, since: int): nat {
    if rows == [] then 0
    else
      var n := |rows| - 1;
      SentSince(rows[..n], since) + if rows[n].created >= since then 1 else 0
  }

  lemma {:induction false} SentSinceCounts(rows: seq<Row>, since: int)
    ensures SentSince(rows, since) == |set k | 0 <= k < |rows| && rows[k].created >= since|
  {
    var now := set k | 0 <= k < |rows| && rows[k].created >= since;
    if rows == [] {
      assert now == {};
    } else {
      var n := |rows| - 1;
      SentSinceCounts(rows[..n], since);
      var was := set k | 0 <= k < n && rows[..n][k].created >= since;
      var grown := if rows[n].created >= since then was + {n} else was;
      forall k ensures k in now <==> k in grown {}
      assert now == grown;
    }
  }

  /** The positions from `n` on whose rows were created in [lo, hi). */
  function Positions(rows: seq<Row>, n: nat, lo: int, hi: int): set<int> {
    set k | n <= k < |rows| && lo <= rows[k].created < hi
  }

  lemma {:induction false} CountInCounts(rows: seq<Row>, n: nat, lo: int, hi: int)
    requires n <= |rows|
    ensures CountIn(rows[n..], lo, hi) == |Positions(rows, n, lo, hi)|
    decreases |rows|
  {
    var now := Positions(rows, n, lo, hi);
    if n == |rows| {
      assert now == {};
    } else {
      var m := |rows| - 1;
      CountInCounts(rows[..m], n, lo, hi);
      assert rows[n..][..m - n] == rows[..m][n..];
      var was := Positions(rows[..m], n, lo, hi);
      var grown := if lo <= rows[m].created < hi then was + {m} else was;
      forall k ensures k in now <==> k in grown {}
      assert now == grown;
    }
  }

  /** One mail offered at second `now`. */
  function Offer(m: Mailer, cap: int, now: int, addressed: bool): (Mailer, Verdict) {
    if !addressed then (m, Unaddressed)
    else if cap <= 0 || SentSince(m.outbox, now - WINDOW) < cap then
      (m.(outbox := m.outbox + [Row(now, false)]), Queued)
    else if m.throttled.Some? && now - m.throttled.value < WINDOW then
      (m, Withheld)
    else
      (Mailer(m.outbox + [Row(now, true)], Some(now)), Noticed)
  }

  /** The limiter as the program runs it. */
  class Limiter {
    var outbox: seq<Row>
    var throttledAt: Option<int>

    constructor (outbox: seq<Row>)
      ensures View() == Mailer(outbox, None)
    {
      this.outbox, throttledAt := outbox, None;
    }

    function View(): Mailer
      reads this
    {
      Mailer(outbox, throttledAt)
    }

    method Send(cap: int, now: int, recipients: seq<string>) returns (v: Verdict)
      modifies this
      ensures (View(), v) == Offer(old(View()), cap, now, recipients != [])
      ensures v == Queued ==> outbox == old(outbox) + [Row(now, false)] && throttledAt == old(throttledAt)
      ensures v == Noticed ==> outbox == old(outbox) + [Row(now, true)] && throttledAt == Some(now)
      ensures v == Withheld || v == Unaddressed ==> View() == old(View())
    {
      if recipients == [] {
        return Unaddressed;
      }
      v := AllowMail(cap, now);
      if v == Queued {
        outbox := outbox + [Row(now, false)];
      }
    }

    /** `Queued` when the mail may go; otherwise whether this refusal put a notice in the outbox. */
    method AllowMail(cap: int, now: int) returns (v: Verdict)
      modifies this
      ensures var (m, w) := Offer(old(View()), cap, now, true);
        v == w && View() == if v == Queued then old(View()) else m
      ensures var recent := set k | 0 <= k < |old(outbox)| && old(outbox)[k].created >= now - 3600;
        v == Queued <==> cap <= 0 || |recent| < cap
    {
      SentSinceCounts(outbox, now - WINDOW);
      if cap <= 0 {
        return Queued;
      }
      if SentSince(outbox, now - WINDOW) < cap {
        return Queued;
      }
      if throttledAt.Some? && now - throttledAt.value < WINDOW {
        return Withheld;
      }
      throttledAt := Some(now);
      outbox := outbox + [Row(now, true)];
      return Noticed;
    }
  }

  // ---- Whole runs of one process ---------------------------------------------

  datatype Mail = Mail(at: int, addressed: bool)

  function Run(m: Mailer, cap: int, mails: seq<Mail>): (Mailer, seq<Verdict>) {
    if mails == [] then (m, [])
    else
      var n := |mails| - 1;
      var (m', vs) := Run(m, cap, mails[..n]);
      var (m'', v) := Offer(m', cap, mails[n].at, mails[n].addressed);
      (m'', vs + [v])
  }

  predicate Later(a: Mail, b: Mail) { a.at <= b.at }

  ghost predicate InOrder(mails: seq<Mail>) {
    forall j, k {:trigger Later(mails[j], mails[k])} :: 0 <= j < k < |mails| ==> Later(mails[j], mails[k])
  }

  /** The rows this process added to the outbox it found. */
  function Added(before: seq<Row>, m: Mailer): seq<Row> {
    if |before| <= |m.outbox| then m.outbox[|before|..] else []
  }

  /** What holds of the added rows at any moment, for the hour starting at `lo`. */
  ghost predicate Bounded(rows: seq<Row>, throttled: Option<int>, cap: int, last: int, lo: int) {
    && (forall k :: 0 <= k < |rows| ==> rows[k].created <= last)
    && (forall k :: 0 <= k < |rows| && rows[k].notice ==> throttled.Some? && rows[k].created <= throttled.value)
    && (throttled.Some? ==> Row(throttled.value, true) in rows)
    && NoticesIn(rows, lo, lo + WINDOW) <= 1
    && CountIn(rows, lo, lo + WINDOW) <= cap + NoticesIn(rows, lo, lo + WINDOW)
  }

  lemma {:induction false} CountedSince(before: seq<Row>, rows: seq<Row>, lo: int, hi: int, since: int)
    requires since <= lo
    ensures CountIn(rows, lo, hi) <= SentSince(before + rows, since)
  {
    if rows != [] {
      var n := |rows| - 1;
      CountedSince(before, rows[..n], lo, hi, since);
      assert (before + rows)[..|before + rows| - 1] == before + rows[..n];
    }
  }

  lemma {:induction false} NoneBefore(rows: seq<Row>, lo: int, hi: int)
    requires forall k :: 0 <= k < |rows| && rows[k].notice ==> rows[k].created < lo
    ensures NoticesIn(rows, lo, hi) == 0
  {
    if rows != [] {
      NoneBefore(rows[..|rows| - 1], lo, hi);
    }
  }

  lemma OneMoreMail(rows: seq<Row>, throttled: Option<int>, cap: int, last: int, now: int, lo: int)
    requires Bounded(rows, throttled, cap, last, lo) && last <= now
    requires lo <= now < lo + WINDOW ==> CountIn(rows, lo, lo + WINDOW) < cap
    ensures Bounded(rows + [Row(now, false)], throttled, cap, now, lo)
  {
    var more := rows + [Row(now, false)];
    assert more[..|rows|] == rows;
  }

  lemma OneMoreNotice(rows: seq<Row>, throttled: Option<int>, cap: int, last: int, now: int, lo: int)
    requires Bounded(rows, throttled, cap, last, lo) && last <= now
    requires throttled.Some? ==> now - throttled.value >= WINDOW
    ensures Bounded(rows + [Row(now, true)], Some(now), cap, now, lo)
  {
    var more := rows + [Row(now, true)];
    assert more[..|rows|] == rows && more[|rows|] == Row(now, true);
    if lo <= now < lo + WINDOW {
      NoneBefore(rows, lo, lo + WINDOW);
    }
  }

  lemma OfferKeepsBounded(before: seq<Row>, m: Mailer, cap: int, last: int, now: int, addressed: bool, lo: int)
    requires cap > 0 && last <= now && |before| <= |m.outbox| && m.outbox[..|before|] == before
    requires Bounded(Added(before, m), m.throttled, cap, last, lo)
    ensures var m' := Offer(m, cap, now, addressed).0;
      |before| <= |m'.outbox| && m'.outbox[..|before|] == before && Bounded(Added(before, m'), m'.throttled, cap, now, lo)
  {
    hide CountIn, NoticesIn, SentSince;
    var (m', v) := Offer(m, cap, now, addressed);
    var rows, rows' := Added(before, m), Added(before, m');
    assert m.outbox == before + rows;
    if v == Queued {
      if now < lo + WINDOW {
        CountedSince(before, rows, lo, lo + WINDOW, now - WINDOW);
      }
      OneMoreMail(rows, m.throttled, cap, last, now, lo);
      assert rows' == rows + [Row(now, false)];
    } else if v == Noticed {
      OneMoreNotice(rows, m.throttled, cap, last, now, lo);
      assert rows' == rows + [Row(now, true)];
    } else {
      assert rows' == rows;
    }
  }

  lemma {:induction false} RunKeepsBounded(before: seq<Row>, cap: int, mails: seq<Mail>, start: int, lo: int)
    requires cap > 0 && InOrder(mails) && (mails != [] ==> start <= mails[0].at)
    ensures var m := Run(Mailer(before, None), cap, mails).0;
      && |before| <= |m.outbox| && m.outbox[..|before|] == before
      && Bounded(Added(before, m), m.throttled, cap, if mails == [] then start else mails[|mails| - 1].at, lo)
  {
    if mails != [] {
      var n := |mails| - 1;
      assert InOrder(mails[..n]) by {
        forall j, k | 0 <= j < k < n ensures Later(mails[..n][j], mails[..n][k]) { assert Later(mails[j], mails[k]); }
      }
      RunKeepsBounded(before, cap, mails[..n], start, lo);
      assert n > 0 ==> Later(mails[n - 1], mails[n]);
      var m := Run(Mailer(before, None), cap, mails[..n]).0;
      OfferKeepsBounded(before, m, cap, if n == 0 then start else mails[n - 1].at, mails[n].at, mails[n].addressed, lo);
    }
  }

  /**
    With a constant cap, no hour ever sees more than cap + 1 mails queued by one process, the
    notice included, whatever the outbox held when it started.
  */
  lemma AtMostCapAndNotice(before: seq<Row>, cap: int, mails: seq<Mail>, lo: int)
    requires cap > 0 && InOrder(mails)
    ensures var rows := Run(Mailer(before, None), cap, mails).0.outbox;
      |set k | |before| <= k < |rows| && lo <= rows[k].created < lo + 3600| <= cap + 1
  {
    RunKeepsBounded(before, cap, mails, if mails == [] then 0 else mails[0].at, lo);
    CountInCounts(Run(Mailer(before, None), cap, mails).0.outbox, |before|, lo, lo + WINDOW);
  }

  ghost predicate NoticeWithin(rows: seq<Row>, now: int) {
    exists k :: 0 <= k < |rows| && rows[k].notice && now - 3600 < rows[k].created <= now
  }

  /** Whoever is refused can read why: a notice was queued at that moment or within the hour before. */
  lemma EveryRefusalIsExplained(before: seq<Row>, cap: int, mails: seq<Mail>)
    requires cap > 0 && InOrder(mails) && mails != []
    ensures var (m, vs) := Run(Mailer(before, None), cap, mails);
      var v := vs[|vs| - 1];
      v == Withheld || v == Noticed ==> NoticeWithin(Added(before, m), mails[|mails| - 1].at)
  {
    var n := |mails| - 1;
    var now := mails[n].at;
    assert InOrder(mails[..n]) by {
      forall j, k | 0 <= j < k < n ensures Later(mails[..n][j], mails[..n][k]) { assert Later(mails[j], mails[k]); }
    }
    RunKeepsBounded(before, cap, mails, mails[0].at, now);
    var (m, vs) := Run(Mailer(before, None), cap, mails);
    var v := vs[|vs| - 1];
    if v == Withheld || v == Noticed {
      assert Row(m.throttled.value, true) in Added(before, m);
      var k :| 0 <= k < |Added(before, m)| && Added(before, m)[k] == Row(m.throttled.value, true);
      assert Added(before, m)[k].created <= now;
    }
  }

  /** The bound is reached: with a cap of one, two mails in one second leave a mail and a notice. */
  lemma CapAndNoticeIsReached()
    ensures var m := Run(Mailer([], None), 1, [Mail(0, true), Mail(0, true)]).0;
      CountIn(Added([], m), 0, 3600) == 2
  {
    var a := Mail(0, true);
    assert [a, a][..1] == [a] && [a][..0] == [];
    assert Run(Mailer([], None), 1, [a]).0 == Mailer([Row(0, false)], None);
    var r := Row(0, false);
    assert [r][..0] == [];
    assert SentSince([r], -WINDOW) == 1;
    assert Run(Mailer([], None), 1, [a, a]).0 == Mailer([r, Row(0, true)], Some(0));
    assert [r, Row(0, true)][..1] == [r];
  }

  // ---- Which mail goes -----------------------------------------------------------

  /** The last mail of a run, and the process as it was offered. */
  lemma LastOffer(before: seq<Row>, cap: int, mails: seq<Mail>)
    requires mails != []
    ensures var n := |mails| - 1;
      var m := Run(Mailer(before, None), cap, mails[..n]).0;
      var vs := Run(Mailer(before, None), cap, mails).1;
      |vs| > 0 && vs[|vs| - 1] == Offer(m, cap, mails[n].at, mails[n].addressed).1
  {
  }

  /**
    A mail goes exactly when it is addressed to someone and there is no cap, or fewer than
    `cap` mails were queued in the hour before it.
  */
  lemma QueuedIff(before: seq<Row>, cap: int, mails: seq<Mail>)
    requires mails != []
    ensures var n := |mails| - 1;
      var rows := Run(Mailer(before, None), cap, mails[..n]).0.outbox;
      var vs := Run(Mailer(before, None), cap, mails).1;
      var recent := set k | 0 <= k < |rows| && rows[k].created >= mails[n].at - 3600;
      |vs| > 0 && (vs[|vs| - 1] == Queued <==> mails[n].addressed && (cap <= 0 || |recent| < cap))
  {
    hide Run, SentSince;
    LastOffer(before, cap, mails);
    var n := |mails| - 1;
    SentSinceCounts(Run(Mailer(before, None), cap, mails[..n]).0.outbox, mails[n].at - WINDOW);
  }

  /** And a refused mail puts a notice in the outbox exactly when this process put none there in the hour before. */
  lemma NoticedIff(before: seq<Row>, cap: int, mails: seq<Mail>)
    requires cap > 0 && InOrder(mails) && mails != []
    ensures var n := |mails| - 1;
      var rows := Run(Mailer(before, None), cap, mails[..n]).0.outbox;
      var vs := Run(Mailer(before, None), cap, mails).1;
      var quiet := forall k :: |before| <= k < |rows| && rows[k].notice ==> rows[k].created <= mails[n].at - 3600;
      |vs| > 0 && (vs[|vs| - 1] == Noticed <==> mails[n].addressed && vs[|vs| - 1] != Queued && quiet)
  {
    hide Run, SentSince, CountIn, NoticesIn;
    LastOffer(before, cap, mails);
    var n := |mails| - 1;
    assert InOrder(mails[..n]) by {
      forall j, k | 0 <= j < k < n ensures Later(mails[..n][j], mails[..n][k]) { assert Later(mails[j], mails[k]); }
    }
    var m := Run(Mailer(before, None), cap, mails[..n]).0;
    RunKeepsBounded(before, cap, mails[..n], mails[0].at, 0);
    var added := Added(before, m);
    if m.throttled.Some? {
      var j :| 0 <= j < |added| && added[j] == Row(m.throttled.value, true);
      assert m.outbox[|before| + j] == added[j];
    }
    forall k | |before| <= k < |m.outbox| && m.outbox[k].notice
      ensures m.throttled.Some? && m.outbox[k].created <= m.throttled.value
    {
      assert added[k - |before|] == m.outbox[k];
    }
  }

  // ---- Within the cap nothing is withheld ------------------------------------------

  /** The addressed mails among the first `n` that were offered at or after `since`. */
  function OfferedSince(mails: seq<Mail>, n: nat, since: int): nat
    requires n <= |mails|
  {
    |Offers(mails, n, since)|
  }

  function Offers(mails: seq<Mail>, n: nat, since: int): set<int>
    requires n <= |mails|
  {
    set j | 0 <= j < n && mails[j].addressed && mails[j].at >= since
  }

  /** No mail, with what the outbox already held, is more than the cap in its hour. */
  ghost predicate WithinCap(before: seq<Row>, cap: int, mails: seq<Mail>) {
    forall n {:trigger mails[n]} :: 0 <= n < |mails| && mails[n].addressed ==>
      |set k | 0 <= k < |before| && before[k].created >= mails[n].at - 3600|
        + OfferedSince(mails, n + 1, mails[n].at - 3600) <= cap
  }

  lemma OneMoreOffered(mails: seq<Mail>, n: nat, since: int)
    requires n < |mails|
    ensures OfferedSince(mails, n + 1, since)
         == OfferedSince(mails, n, since) + if mails[n].addressed && mails[n].at >= since then 1 else 0
  {
    var was, now := Offers(mails, n, since), Offers(mails, n + 1, since);
    var grown := if mails[n].addressed && mails[n].at >= since then was + {n} else was;
    forall j ensures j in now <==> j in grown {}
    assert now == grown;
  }

  lemma SamePrefix(mails: seq<Mail>, m: nat, n: nat, since: int)
    requires n <= m <= |mails|
    ensures OfferedSince(mails[..m], n, since) == OfferedSince(mails, n, since)
  {
    assert Offers(mails[..m], n, since) == Offers(mails, n, since);
  }

  lemma RowsOneMore(rows: seq<Row>, row: Row, since: int)
    ensures SentSince(rows + [row], since) == SentSince(rows, since) + if row.created >= since then 1 else 0
  {
    assert (rows + [row])[..|rows|] == rows;
  }

  /** While all mails go, the outbox holds what it held and one row for each of them. */
  lemma {:induction false} AllQueuedSoFar(before: seq<Row>, cap: int, mails: seq<Mail>, since: int)
    requires WithinCap(before, cap, mails)
    ensures var (m, vs) := Run(Mailer(before, None), cap, mails);
      && m.throttled == None
      && (forall v :: v in vs ==> v == Queued || v == Unaddressed)
      && SentSince(m.outbox, since) == SentSince(before, since) + OfferedSince(mails, |mails|, since)
  {
    hide SentSince, OfferedSince;
    if mails == [] {
      NoneOffered(since);
    } else {
      var n := |mails| - 1;
      var hour := mails[n].at - WINDOW;
      forall k | 0 <= k < n
        ensures mails[..n][k] == mails[k] && OfferedSince(mails[..n], k + 1, mails[k].at - 3600) == OfferedSince(mails, k + 1, mails[k].at - 3600)
      {
        SamePrefix(mails, n, k + 1, mails[k].at - 3600);
      }
      AllQueuedSoFar(before, cap, mails[..n], since);
      AllQueuedSoFar(before, cap, mails[..n], hour);
      SamePrefix(mails, n, n, since);
      SamePrefix(mails, n, n, hour);
      OneMoreOffered(mails, n, since);
      OneMoreOffered(mails, n, hour);
      SentSinceCounts(before, hour);
      RowsOneMore(Run(Mailer(before, None), cap, mails[..n]).0.outbox, Row(mails[n].at, false), since);
    }
  }

  lemma NoneOffered(since: int)
    ensures OfferedSince([], 0, since) == 0
  {
    assert Offers([], 0, since) == {};
  }

  /** Whoever stays within the cap is never told to wait. */
  lemma WithinCapNothingIsWithheld(before: seq<Row>, cap: int, mails: seq<Mail>)
    requires WithinCap(before, cap, mails)
    ensures forall v :: v in Run(Mailer(before, None), cap, mails).1 ==> v == Queued || v == Unaddressed
  {
    AllQueuedSoFar(before, cap, mails, 0);
  }
}
