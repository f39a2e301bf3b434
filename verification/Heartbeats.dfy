/** Raw check results: the heartbeat table, keyed by row id, and counts over it. */
module Heartbeats {
  import opened Base
  import opened Calendar

  datatype Beat = Beat(device: int, up: bool, latency: int, at: int)

  type Beats = map<int, Beat>

  datatype Checks = Checks(total: nat, up: nat)

  function KeyOf(cal: Calendar, b: Beat): DeviceDay {
    DeviceDay(b.device, cal.DayOf(b.at))
  }

  /** The rows that fall on one device-day. */
  function RowsOf(cal: Calendar, beats: Beats, key: DeviceDay): set<int> {
    set id | id in beats && KeyOf(cal, beats[id]) == key
  }

  function UpRows(beats: Beats, ids: set<int>): set<int> {
    set id | id in ids && id in beats && beats[id].up
  }

  /** How many checks a device-day has, and how many succeeded. */
  function Tally(cal: Calendar, beats: Beats, key: DeviceDay): Checks {
    var ids := RowsOf(cal, beats, key);
    Checks(|ids|, |UpRows(beats, ids)|)
  }

  /** The rows of one device between two midnights, said without the day of a second. */
  function ChecksOn(cal: Calendar, beats: Beats, device: int, day: int): set<int> {
    set id | id in beats && beats[id].device == device && cal.Start(day) <= beats[id].at < cal.Start(day + 1)
  }

  /** A tally counts just the rows between two midnights, and of those just the successful ones. */
  lemma TallyCounts(cal: Calendar, beats: Beats, key: DeviceDay)
    requires cal.Ordered()
    ensures var on := ChecksOn(cal, beats, key.device, key.day);
      Tally(cal, beats, key) == Checks(|on|, |set id | id in on && beats[id].up|)
  {
    var on := ChecksOn(cal, beats, key.device, key.day);
    forall id ensures id in RowsOf(cal, beats, key) <==> id in on {
      if id in beats {
        OneDayPerSecond(cal, beats[id].at, key.day);
      }
    }
    assert RowsOf(cal, beats, key) == on;
    var up := set id | id in on && beats[id].up;
    forall id ensures id in UpRows(beats, on) <==> id in up {}
    assert UpRows(beats, on) == up;
  }

  lemma NoChecks(cal: Calendar, key: DeviceDay)
    ensures Tally(cal, map[], key) == Checks(0, 0)
  {
    assert RowsOf(cal, map[], key) == {};
    assert UpRows(map[], {}) == {};
  }

  /**
    Recording a check under a new id raises the total of the device-day it falls on by one, and
    the successes by one exactly when it succeeded; no other device-day changes.
  */
  lemma OneMoreCheck(cal: Calendar, beats: Beats, id: int, b: Beat, key: DeviceDay)
    requires cal.Ordered() && id !in beats
    ensures var was, now := Tally(cal, beats, key), Tally(cal, beats[id := b], key);
      var on := b.device == key.device && cal.Start(key.day) <= b.at < cal.Start(key.day + 1);
      && now.total == was.total + (if on then 1 else 0)
      && now.up == was.up + (if on && b.up then 1 else 0)
  {
    hide RowsOf, UpRows;
    OneDayPerSecond(cal, b.at, key.day);
    OneMoreRow(cal, beats, id, b, key);
    OneMoreUpRow(beats, id, b, RowsOf(cal, beats, key));
  }

  lemma OneMoreRow(cal: Calendar, beats: Beats, id: int, b: Beat, key: DeviceDay)
    requires id !in beats
    ensures var was := RowsOf(cal, beats, key);
      id !in was && RowsOf(cal, beats[id := b], key) == if KeyOf(cal, b) == key then was + {id} else was
  {
    var was := RowsOf(cal, beats, key);
    var grown := if KeyOf(cal, b) == key then was + {id} else was;
    forall k ensures k in RowsOf(cal, beats[id := b], key) <==> k in grown {}
  }

  lemma OneMoreUpRow(beats: Beats, id: int, b: Beat, ids: set<int>)
    requires id !in beats && id !in ids
    ensures var was := UpRows(beats, ids);
      && id !in was
      && UpRows(beats[id := b], ids) == was
      && UpRows(beats[id := b], ids + {id}) == if b.up then was + {id} else was
  {
    var was, more := UpRows(beats, ids), beats[id := b];
    var grown := if b.up then was + {id} else was;
    forall k ensures k in UpRows(more, ids) <==> k in was {}
    forall k ensures k in UpRows(more, ids + {id}) <==> k in grown {}
  }

  /** Rows with a time before `before`. */
  function Older(beats: Beats, before: int): set<int> {
    set id | id in beats && beats[id].at < before
  }

  lemma SameUpRows(a: Beats, b: Beats, ids: set<int>)
    requires forall id :: id in ids ==> id in a && id in b && a[id] == b[id]
    ensures UpRows(a, ids) == UpRows(b, ids)
  {
    forall id ensures id in UpRows(a, ids) <==> id in UpRows(b, ids) {}
  }

  /** The same rows give the same counts. */
  lemma SameRowsSameTally(cal: Calendar, a: Beats, b: Beats, key: DeviceDay)
    requires RowsOf(cal, a, key) == RowsOf(cal, b, key)
    requires forall id :: id in a && id in b ==> a[id] == b[id]
    ensures Tally(cal, a, key) == Tally(cal, b, key)
  {
    var ids := RowsOf(cal, a, key);
    SameUpRows(a, b, ids);
  }

  /** Dropping rows older than a midnight empties earlier days and leaves later ones alone. */
  lemma RowsAfterPrune(cal: Calendar, beats: Beats, first: int, key: DeviceDay)
    requires cal.Ordered()
    ensures RowsOf(cal, beats - Older(beats, cal.Start(first)), key)
         == if key.day < first then {} else RowsOf(cal, beats, key)
  {
    var kept := beats - Older(beats, cal.Start(first));
    forall id
      ensures id in RowsOf(cal, kept, key) <==> key.day >= first && id in RowsOf(cal, beats, key)
    {
      if id in beats {
        cal.DayOrder(beats[id].at, first);
      }
    }
  }
}
