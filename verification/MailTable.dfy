/** One table, two readers: the hourly cap counts the rows that the queue retries until they are sent. */
module MailTable {
  import opened Base
  import Cap = HourlyCap
  import opened Outbox

  /** The mails added over a run, in order, as the hourly cap sees them. */
  function Journal(es: seq<Event>, notices: set<int>): seq<Cap.Row> {
    if es == [] then []
    else
      var n := |es| - 1;
      Journal(es[..n], notices) + if es[n].Add? then [Cap.Row(es[n].now, es[n].id in notices)] else []
  }

  /** The rows created at or after `since`, sent or not. */
  function CreatedSince(rows: Rows, since: int): set<int> {
    set id | id in rows && rows[id].created >= since
  }

  lemma CreatedAfter(rows: Rows, e: Event, since: int)
    requires Admissible(rows, e)
    ensures CreatedSince(After(rows, e), since)
         == if e.Add? && e.now >= since then CreatedSince(rows, since) + {e.id} else CreatedSince(rows, since)
  {
    var was := CreatedSince(rows, since);
    var more := if e.Add? && e.now >= since then was + {e.id} else was;
    forall id ensures id in CreatedSince(After(rows, e), since) <==> id in more {}
  }

  /** However often mails were tried, sent or given up, the cap counts each one once, from the second it was queued. */
  lemma {:induction false} CapCountsTheTable(es: seq<Event>, notices: set<int>, since: int)
    requires AdmissibleRun(map[], es)
    ensures Cap.SentSince(Journal(es, notices), since) == |CreatedSince(Run(map[], es), since)|
  {
    if es == [] {
      assert CreatedSince(map[], since) == {};
    } else {
      var n := |es| - 1;
      var rows, e := Run(map[], es[..n]), es[n];
      CapCountsTheTable(es[..n], notices, since);
      CreatedAfter(rows, e, since);
      var journal := Journal(es[..n], notices);
      if e.Attempt? {
        assert journal + [] == journal;
      } else {
        var row := Cap.Row(e.now, e.id in notices);
        assert (journal + [row])[..|journal|] == journal;
        assert e.id !in CreatedSince(rows, since);
      }
    }
  }
}
