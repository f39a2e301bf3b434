/**
  The live event stream: the frames the service writes and the incremental parser that
  reads them back. A subset of the event-stream format of the WHATWG HTML Living Standard,
  sections 9.2.5 and 9.2.6: the last data line of a frame wins, and a lone carriage return
  does not end a line.
*/
module EventStream {
  import opened Base
  import opened Text

  /** A parsed event; the payload is whatever the JSON parser makes of the data line. */
  datatype Event<V> = Event(kind: string, data: V)

  // ---- Frame boundaries ------------------------------------------------------

  /** A blank line, with either line ending on either side, fills [i, i + n). */
  predicate Blank(s: string, i: nat, n: nat) {
    && i + n <= |s|
    && match n
       case 2 => s[i] == '\n' && s[i + 1] == '\n'
       case 3 => (s[i] == '\r' && s[i + 1] == '\n' && s[i + 2] == '\n') || (s[i] == '\n' && s[i + 1] == '\r' && s[i + 2] == '\n')
       case 4 => s[i] == '\r' && s[i + 1] == '\n' && s[i + 2] == '\r' && s[i + 3] == '\n'
       case _ => false
  }

  /** How long the blank line starting at `i` is, or 0. */
  function BlankLength(s: string, i: nat): (n: nat)
    requires i <= |s|
    ensures n > 0 ==> Blank(s, i, n)
    ensures n == 0 ==> forall m: nat :: !Blank(s, i, m)
  {
    var p := if i < |s| && s[i] == '\r' then i + 1 else i;
    if p < |s| && s[p] == '\n' then
      var q := if p + 1 < |s| && s[p + 1] == '\r' then p + 2 else p + 1;
      if q < |s| && s[q] == '\n' then q + 1 - i else 0
    else
      0
  }

  datatype Cut = Cut(at: nat, length: nat)

  /** The leftmost blank line at or after `from`. */
  function FindBlank(s: string, from: nat): (c: Option<Cut>)
    requires from <= |s|
    ensures c.Some? ==> from <= c.value.at && Blank(s, c.value.at, c.value.length)
    ensures c.Some? ==> forall i: nat, n: nat :: from <= i < c.value.at ==> !Blank(s, i, n)
    ensures c.None? ==> forall i: nat, n: nat :: from <= i ==> !Blank(s, i, n)
    decreases |s| - from
  {
    if BlankLength(s, from) > 0 then Some(Cut(from, BlankLength(s, from)))
    else if from == |s| then None
    else FindBlank(s, from + 1)
  }

  /** More text after a boundary does not move it. */
  lemma BoundaryIsStable(s: string, more: string)
    requires FindBlank(s, 0).Some?
    ensures FindBlank(s + more, 0) == FindBlank(s, 0)
  {
    var c := FindBlank(s, 0).value;
    var t := s + more;
    assert forall k :: 0 <= k < |s| ==> t[k] == s[k];
    assert Blank(t, c.at, c.length);
    var d := FindBlank(t, 0).value;
    assert d.at <= c.at;
    if d.at + d.length <= |s| {
      assert Blank(s, d.at, d.length);
    }
  }

  // ---- Frames ----------------------------------------------------------------

  /** The complete frames of a buffer, and what is left over. */
  function Frames(buffer: string): (r: (seq<string>, string))
    decreases |buffer|
  {
    match FindBlank(buffer, 0)
    case None => ([], buffer)
    case Some(c) =>
      var (frames, rest) := Frames(buffer[c.at + c.length..]);
      ([buffer[..c.at]] + frames, rest)
  }

  /** Splitting off frames early and holding the rest over gives the frames of the whole text. */
  lemma {:induction false} FramesOfMore(buffer: string, more: string)
    ensures var (early, held) := Frames(buffer);
      var (late, rest) := Frames(held + more);
      Frames(buffer + more) == (early + late, rest)
    decreases |buffer|
  {
    hide FindBlank;
    match FindBlank(buffer, 0)
    case None =>
      assert [] + Frames(buffer + more).0 == Frames(buffer + more).0;
    case Some(c) =>
      BoundaryIsStable(buffer, more);
      var tail := buffer[c.at + c.length..];
      assert (buffer + more)[c.at + c.length..] == tail + more;
      assert (buffer + more)[..c.at] == buffer[..c.at];
      FramesOfMore(tail, more);
      Associative([buffer[..c.at]], Frames(tail).0, Frames(Frames(tail).1 + more).0);
  }

  lemma Associative<T>(a: seq<T>, b: seq<T>, c: seq<T>)
    ensures a + b + c == a + (b + c)
  {
  }

  // ---- One frame -------------------------------------------------------------

  /** What JavaScript's trim removes. */
  predicate IsSpace(c: char) { CommonSpace(c) || c == '\U{feff}' }

  function Chomp(line: string): string {
    if line != [] && line[|line| - 1] == '\r' then line[..|line| - 1] else line
  }

  datatype Fields = Fields(kind: Option<string>, data: Option<string>)

  function Field(f: Fields, raw: string): Fields {
    var line := Chomp(raw);
    if line == "" || line[0] == ':' then f
    else if "event:" <= line then f.(kind := Some(Trim(line[6..], IsSpace)))
    else if "data:" <= line then f.(data := Some(Trim(line[5..], IsSpace)))
    else f
  }

  function FieldsOf(lines: seq<string>): Fields {
    if lines == [] then Fields(None, None) else Field(FieldsOf(lines[..|lines| - 1]), lines[|lines| - 1])
  }

  /** `json` is the JSON parser: no value for malformed text. */
  function ParseFrame<V>(frame: string, json: string -> Option<V>): Option<Event<V>> {
    var f := FieldsOf(Split(frame, '\n'));
    if f.kind.None? || f.data.None? then None
    else
      match json(f.data.value)
      case None => None
      case Some(v) => Some(Event(f.kind.value, v))
  }

  function ParseFrames<V>(frames: seq<string>, json: string -> Option<V>): seq<Event<V>> {
    if frames == [] then []
    else
      var e := ParseFrame(frames[0], json);
      (if e.Some? then [e.value] else []) + ParseFrames(frames[1..], json)
  }

  lemma {:induction false} ParseFramesConcat<V>(a: seq<string>, b: seq<string>, json: string -> Option<V>)
    ensures ParseFrames(a + b, json) == ParseFrames(a, json) + ParseFrames(b, json)
  {
    if a == [] {
      assert a + b == b;
    } else {
      assert (a + b)[1..] == a[1..] + b;
      ParseFramesConcat(a[1..], b, json);
    }
  }

  /** Every event in a text that arrives in one piece. */
  function EventsIn<V>(text: string, json: string -> Option<V>): seq<Event<V>> {
    ParseFrames(Frames(text).0, json)
  }

  // ---- The incremental parser ------------------------------------------------

  class Parser<V> {
    var buffer: string
    const json: string -> Option<V>
    ghost var text: string  // everything decoded so far

    constructor (json: string -> Option<V>)
      ensures this.json == json && Valid() && text == ""
    {
      this.json, buffer, text := json, "", "";
    }

    ghost predicate Valid()
      reads this
    {
      Frames(text).1 == buffer
    }

    /** One decoded chunk: the events it completes. */
    method Feed(chunk: string) returns (out: seq<Event<V>>)
      requires Valid()
      modifies this
      ensures Valid() && text == old(text) + chunk
      ensures EventsIn(text, json) == EventsIn(old(text), json) + out
    {
      hide FindBlank, ParseFrame;
      out := [];
      buffer := buffer + chunk;
      ghost var all := Frames(buffer);
      ghost var done: seq<string> := [];
      assert [] + all.0 == all.0;
      while true
        invariant all == (done + Frames(buffer).0, Frames(buffer).1)
        invariant out == ParseFrames(done, json)
        invariant text == old(text)
        decreases |buffer|
      {
        var boundary := FindBlank(buffer, 0);
        if boundary.None? {
          break;
        }
        var frame := buffer[..boundary.value.at];
        var rest := buffer[boundary.value.at + boundary.value.length..];
        Associative(done, [frame], Frames(rest).0);
        ParseFramesConcat(done, [frame], json);
        assert [frame][1..] == [];
        done := done + [frame];
        buffer := rest;
        var event := ReadFrame(frame);
        if event.Some? {
          out := out + [event.value];
        }
      }
      assert done + [] == done;
      FramesOfMore(old(text), chunk);
      ParseFramesConcat(Frames(old(text)).0, done, json);
      text := text + chunk;
    }

    method ReadFrame(frame: string) returns (event: Option<Event<V>>)
      ensures event == ParseFrame(frame, json)
    {
      var kind: Option<string> := None;
      var data: Option<string> := None;
      var lines := Split(frame, '\n');
      for n := 0 to |lines|
        invariant Fields(kind, data) == FieldsOf(lines[..n])
      {
        assert lines[..n + 1][..n] == lines[..n];
        var line := Chomp(lines[n]);
        if line == "" || line[0] == ':' {
          continue;
        }
        if "event:" <= line {
          kind := Some(Trim(line[6..], IsSpace));
        } else if "data:" <= line {
          data := Some(Trim(line[5..], IsSpace));
        }
      }
      assert lines[..|lines|] == lines;
      if kind.None? || data.None? {
        return None;
      }
      match json(data.value)
      case None => return None;
      case Some(v) => return Some(Event(kind.value, v));
    }
  }

  function Concat(chunks: seq<string>): string {
    if chunks == [] then "" else Concat(chunks[..|chunks| - 1]) + chunks[|chunks| - 1]
  }

  /** However the text is cut into chunks, the parser yields the events of the whole text, in order. */
  method ParseChunks<V>(chunks: seq<string>, json: string -> Option<V>) returns (out: seq<Event<V>>)
    ensures out == EventsIn(Concat(chunks), json)
  {
    var parser := new Parser(json);
    out := [];
    assert Frames("").0 == [];
    for n := 0 to |chunks|
      invariant fresh(parser) && parser.Valid() && parser.json == json
      invariant parser.text == Concat(chunks[..n])
      invariant out == EventsIn(parser.text, json)
    {
      assert chunks[..n + 1][..n] == chunks[..n];
      var more := parser.Feed(chunks[n]);
      out := out + more;
    }
    assert chunks[..|chunks|] == chunks;
  }

  // ---- What the service writes -------------------------------------------------

  datatype Item = Send(kind: string, payload: string) | Note(text: string)

  /** A frame without the blank line that ends it. */
  function Body(item: Item): string {
    match item
    case Send(kind, payload) => "event: " + kind + "\n" + ("data: " + payload)
    case Note(text) => ": " + text
  }

  function Print(items: seq<Item>): string {
    if items == [] then "" else Body(items[0]) + "\n\n" + Print(items[1..])
  }

  /** The service's writer: one frame or one comment at a time. */
  class Writer {
    var out: string
    ghost var items: seq<Item>

    constructor ()
      ensures Valid() && items == []
    {
      out, items := "", [];
    }

    ghost predicate Valid()
      reads this
    {
      out == Print(items)
    }

    method WriteEvent(kind: string, payload: string)
      requires Valid()
      modifies this
      ensures Valid() && items == old(items) + [Send(kind, payload)]
    {
      PrintAppend(items, Send(kind, payload));
      out := out + ("event: " + kind + "\n" + ("data: " + payload) + "\n\n");
      items := items + [Send(kind, payload)];
    }

    method WriteComment(text: string)
      requires Valid()
      modifies this
      ensures Valid() && items == old(items) + [Note(text)]
    {
      PrintAppend(items, Note(text));
      out := out + (": " + text + "\n\n");
      items := items + [Note(text)];
    }
  }

  lemma {:induction false} PrintAppend(items: seq<Item>, item: Item)
    ensures Print(items + [item]) == Print(items) + (Body(item) + "\n\n")
  {
    if items == [] {
      assert [item][1..] == [];
      assert Print([item]) == Body(item) + "\n\n" + Print([]);
    } else {
      assert (items + [item])[1..] == items[1..] + [item];
      PrintAppend(items[1..], item);
      Associative(Body(items[0]) + "\n\n", Print(items[1..]), Body(item) + "\n\n");
    }
  }

  // ---- Round trip --------------------------------------------------------------

  predicate OneLine(s: string) { '\n' !in s && '\r' !in s }

  predicate Writable(item: Item) {
    match item
    case Send(kind, payload) => OneLine(kind) && Tight(kind, IsSpace) && OneLine(payload) && Tight(payload, IsSpace)
    case Note(text) => OneLine(text)
  }

  /** A printed frame is cut off exactly where it ends. */
  lemma CutsAtBody(item: Item, rest: string)
    requires Writable(item)
    ensures FindBlank(Body(item) + "\n\n" + rest, 0) == Some(Cut(|Body(item)|, 2))
  {
    var b := Body(item);
    var t := b + "\n\n" + rest;
    assert forall k :: 0 <= k < |b| ==> t[k] == b[k];
    assert Blank(t, |b|, 2);
    match item {
      case Send(kind, payload) =>
        var p := |"event: " + kind|;
        assert b[p] == '\n' && b[p + 1] == 'd';
        forall k | 0 <= k < |b| && k != p ensures b[k] != '\n' && b[k] != '\r' {
          if k < p {
            assert b[k] == ("event: " + kind)[k];
          } else {
            assert b[k] == ("data: " + payload)[k - p - 1];
          }
        }
      case Note(text) =>
        forall k | 0 <= k < |b| ensures b[k] != '\n' && b[k] != '\r' {}
    }
    assert forall i: nat, n: nat :: i < |b| ==> !Blank(t, i, n);
  }

  lemma TrimsLeadingSpace(s: string)
    requires Tight(s, IsSpace)
    ensures Trim(" " + s, IsSpace) == s
  {
    assert (" " + s)[0] == ' ' && (" " + s)[1..] == s;
    assert TrimStart(" " + s, IsSpace) == TrimStart(s, IsSpace) == s;
    assert TrimEnd(s, IsSpace) == s;
  }

  lemma ReadsField(f: Fields, text: string)
    requires OneLine(text) && Tight(text, IsSpace)
    ensures Field(f, "event: " + text) == f.(kind := Some(text))
    ensures Field(f, "data: " + text) == f.(data := Some(text))
  {
    var a, b := "event: " + text, "data: " + text;
    TrimsLeadingSpace(text);
    assert Chomp(a) == a && Chomp(b) == b;
    assert a[6..] == " " + text && b[5..] == " " + text;
    assert !("event:" <= b) by { assert b[0] == 'd'; }
  }

  lemma FieldsOfMore(lines: seq<string>, line: string)
    ensures FieldsOf(lines + [line]) == Field(FieldsOf(lines), line)
  {
    assert (lines + [line])[..|lines|] == lines;
  }

  lemma FieldsOfBody(item: Item)
    requires Writable(item)
    ensures FieldsOf(Split(Body(item), '\n'))
         == match item case Note(_) => Fields(None, None) case Send(kind, payload) => Fields(Some(kind), Some(payload))
  {
    match item
    case Note(text) =>
      var a := ": " + text;
      SplitOfOne(a, '\n');
      FieldsOfMore([], a);
      assert [] + [a] == [a];
      assert Chomp(a) == a;
    case Send(kind, payload) =>
      var a, b := "event: " + kind, "data: " + payload;
      SplitOfTwo(a, '\n', b);
      SplitOfOne(b, '\n');
      FieldsOfMore([], a);
      FieldsOfMore([a], b);
      assert [] + [a] == [a] && [a] + [b] == [a, b];
      ReadsField(Fields(None, None), kind);
      ReadsField(Fields(Some(kind), None), payload);
  }

  lemma TakesOneFrame(item: Item, rest: string)
    requires Writable(item)
    ensures Frames(Body(item) + "\n\n" + rest) == ([Body(item)] + Frames(rest).0, Frames(rest).1)
  {
    CutsAtBody(item, rest);
    var t := Body(item) + "\n\n" + rest;
    assert t[|Body(item)| + 2..] == rest && t[..|Body(item)|] == Body(item);
  }

  /** The event one item stands for, as a list of at most one. */
  function EventOf<V>(item: Item, json: string -> Option<V>): seq<Event<V>> {
    if item.Send? && json(item.payload).Some? then [Event(item.kind, json(item.payload).value)] else []
  }

  lemma ReadsBack<V>(item: Item, json: string -> Option<V>)
    requires Writable(item)
    ensures ParseFrames([Body(item)], json) == EventOf(item, json)
  {
    FieldsOfBody(item);
    assert [Body(item)][1..] == [];
  }

  /** The events a reader should see: everything sent that is valid JSON. */
  function Expected<V>(items: seq<Item>, json: string -> Option<V>): seq<Event<V>> {
    if items == [] then []
    else
      EventOf(items[0], json) + Expected(items[1..], json)
  }

  /**
    Whatever the service writes - events with one-line payloads, comments in between - is read
    back as exactly those events in order, with nothing left in the buffer.
  */
  lemma {:induction false} WrittenEventsAreRead<V>(items: seq<Item>, json: string -> Option<V>)
    requires forall k :: 0 <= k < |items| ==> Writable(items[k])
    ensures EventsIn(Print(items), json) == Expected(items, json)
    ensures Frames(Print(items)).1 == ""
  {
    if items != [] {
      var rest := Print(items[1..]);
      TakesOneFrame(items[0], rest);
      ReadsBack(items[0], json);
      WrittenEventsAreRead(items[1..], json);
      ParseFramesConcat([Body(items[0])], Frames(rest).0, json);
    }
  }

  /** Of two data lines in one frame only the second counts. */
  lemma LastDataLineWins(kind: string, first: string, second: string)
    requires Writable(Send(kind, first)) && Writable(Send(kind, second))
    ensures FieldsOf(Split(Body(Send(kind, first)) + "\n" + ("data: " + second), '\n')) == Fields(Some(kind), Some(second))
  {
    var a, b, c := "event: " + kind, "data: " + first, "data: " + second;
    assert a + "\n" + b + "\n" + c == a + "\n" + (b + "\n" + c);
    SplitOfTwo(a, '\n', b + "\n" + c);
    SplitOfTwo(b, '\n', c);
    SplitOfOne(c, '\n');
    FieldsOfMore([], a);
    FieldsOfMore([a], b);
    FieldsOfMore([a, b], c);
    assert [] + [a] == [a] && [a] + [b] == [a, b] && [a, b] + [c] == [a, b, c] && [a] + ([b] + [c]) == [a, b, c];
    ReadsField(Fields(None, None), kind);
    ReadsField(Fields(Some(kind), None), first);
    ReadsField(Fields(Some(kind), Some(first)), second);
  }
}
