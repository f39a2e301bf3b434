/** The parser on text it did not write: either line ending anywhere, fields in any order, other lines in between. */
module LineEndings {
  import opened Base
  import opened Text
  import opened EventStream

  // ---- Which lines of a frame count ---------------------------------------------

  /** Line `k` is the last one that begins with `name`. */
  predicate LastNaming(lines: seq<string>, name: string, k: int) {
    0 <= k < |lines| && name <= lines[k] && forall j :: k < j < |lines| ==> !(name <= lines[j])
  }

  lemma ChompKeepsStart(line: string, name: string)
    requires '\r' !in name && name != ""
    ensures name <= Chomp(line) <==> name <= line
  {
    if name <= line && line[|line| - 1] == '\r' {
      assert |name| == |line| ==> line == name && '\r' in line;
    }
  }

  lemma FieldIs(f: Fields, line: string)
    ensures var g := Field(f, line);
      && g.kind == (if "event:" <= line then Some(Trim(Chomp(line)[6..], IsSpace)) else f.kind)
      && g.data == (if "data:" <= line then Some(Trim(Chomp(line)[5..], IsSpace)) else f.data)
  {
    ChompKeepsStart(line, "event:");
    ChompKeepsStart(line, "data:");
    hide Trim;
  }

  /**
    The last line that begins with `event:` names the event and the last that begins with `data:`
    carries it, each without outer white space; comments, blank lines and other fields count for nothing.
  */
  lemma {:induction false} LastFieldsCount(lines: seq<string>, k: int)
    ensures FieldsOf(lines).kind.None? <==> forall j :: 0 <= j < |lines| ==> !("event:" <= lines[j])
    ensures FieldsOf(lines).data.None? <==> forall j :: 0 <= j < |lines| ==> !("data:" <= lines[j])
    ensures LastNaming(lines, "event:", k) ==> FieldsOf(lines).kind == Some(Trim(Chomp(lines[k])[6..], IsSpace))
    ensures LastNaming(lines, "data:", k) ==> FieldsOf(lines).data == Some(Trim(Chomp(lines[k])[5..], IsSpace))
  {
    hide Field, Trim, Chomp;
    if lines != [] {
      var n := |lines| - 1;
      LastFieldsCount(lines[..n], k);
      FieldIs(FieldsOf(lines[..n]), lines[n]);
      assert forall j :: 0 <= j < n ==> lines[..n][j] == lines[j];
    }
  }

  /** A frame is an event exactly when it has both and the data is JSON. */
  lemma FrameIsEventIff<V>(frame: string, json: string -> Option<V>)
    ensures var f := FieldsOf(Split(frame, '\n'));
      var e := ParseFrame(frame, json);
      && (e.Some? <==> f.kind.Some? && f.data.Some? && json(f.data.value).Some?)
      && (e.Some? ==> e.value == Event(f.kind.value, json(f.data.value).value))
  {
    hide FieldsOf;
  }

  // ---- Carriage returns ------------------------------------------------------------

  function NewLine(cr: bool): string { if cr then "\r\n" else "\n" }

  /** Which of an item's line ends carry a carriage return. */
  datatype Ends = Ends(inner: bool, last: bool, blank: bool)

  function BodyWith(item: Item, cr: bool): string {
    match item
    case Send(kind, payload) => "event: " + kind + NewLine(cr) + ("data: " + payload)
    case Note(text) => ": " + text
  }

  function Sent(items: seq<(Item, Ends)>): string {
    if items == [] then ""
    else
      var (item, ends) := items[0];
      BodyWith(item, ends.inner) + (NewLine(ends.last) + NewLine(ends.blank)) + Sent(items[1..])
  }

  function ItemsOf(items: seq<(Item, Ends)>): seq<Item> {
    if items == [] then [] else [items[0].0] + ItemsOf(items[1..])
  }

  /** Inside a frame no line is blank. */
  lemma BodyHasNoBlank(item: Item, cr: bool, rest: string)
    requires Writable(item) && rest != "" && (rest[0] == '\n' || rest[0] == '\r')
    ensures var b := BodyWith(item, cr); forall i: nat, n: nat :: i < |b| ==> !Blank(b + rest, i, n)
  {
    var b := BodyWith(item, cr);
    var t := b + rest;
    assert forall k :: 0 <= k < |b| ==> t[k] == b[k];
    match item {
      case Send(kind, payload) =>
        var p := |"event: " + kind|;
        var q := p + |NewLine(cr)|;
        assert b[q] == 'd' && b[q - 1] == '\n' && (cr ==> b[p] == '\r');
        forall k | 0 <= k < |b| && !(p <= k < q) ensures b[k] != '\n' && b[k] != '\r' {
          if k < p {
            assert b[k] == ("event: " + kind)[k];
          } else {
            assert b[k] == ("data: " + payload)[k - q];
          }
        }
      case Note(text) =>
        forall k | 0 <= k < |b| ensures b[k] != '\n' && b[k] != '\r' {}
    }
  }

  lemma CutsAtBodyWith(item: Item, ends: Ends, rest: string)
    requires Writable(item)
    ensures var b, gap := BodyWith(item, ends.inner), NewLine(ends.last) + NewLine(ends.blank);
      FindBlank(b + gap + rest, 0) == Some(Cut(|b|, |gap|))
  {
    var b, gap := BodyWith(item, ends.inner), NewLine(ends.last) + NewLine(ends.blank);
    var t := b + gap + rest;
    assert t == b + (gap + rest);
    BodyHasNoBlank(item, ends.inner, gap + rest);
    assert t[|b|..] == gap + rest;
    assert forall k :: 0 <= k < |gap| ==> t[|b| + k] == gap[k];
    assert Blank(t, |b|, |gap|);
    assert FindBlank(t, 0).Some? && FindBlank(t, 0).value.at == |b|;
  }

  lemma ReadsFieldWith(f: Fields, text: string, cr: bool)
    requires OneLine(text) && Tight(text, IsSpace)
    ensures var end := if cr then "\r" else "";
      Field(f, "event: " + text + end) == f.(kind := Some(text))
  {
    var line := "event: " + text;
    ReadsField(f, text);
    if cr {
      assert Chomp(line + "\r") == line;
      assert Chomp(line) == line;
    } else {
      assert line + "" == line;
    }
  }

  lemma FieldsOfBodyWith(item: Item, cr: bool)
    requires Writable(item)
    ensures FieldsOf(Split(BodyWith(item, cr), '\n'))
         == match item case Note(_) => Fields(None, None) case Send(kind, payload) => Fields(Some(kind), Some(payload))
  {
    match item
    case Note(text) => FieldsOfBody(item);
    case Send(kind, payload) =>
      var a, b := "event: " + kind + (if cr then "\r" else ""), "data: " + payload;
      assert BodyWith(item, cr) == a + "\n" + b;
      SplitOfTwo(a, '\n', b);
      SplitOfOne(b, '\n');
      FieldsOfMore([], a);
      FieldsOfMore([a], b);
      assert [] + [a] == [a] && [a] + [b] == [a, b];
      ReadsFieldWith(Fields(None, None), kind, cr);
      ReadsField(Fields(Some(kind), None), payload);
  }

  lemma TakesOneFrameWith(item: Item, ends: Ends, rest: string)
    requires Writable(item)
    ensures var b, gap := BodyWith(item, ends.inner), NewLine(ends.last) + NewLine(ends.blank);
      Frames(b + gap + rest) == ([b] + Frames(rest).0, Frames(rest).1)
  {
    CutsAtBodyWith(item, ends, rest);
    var b, gap := BodyWith(item, ends.inner), NewLine(ends.last) + NewLine(ends.blank);
    var t := b + gap + rest;
    assert t[|b| + |gap|..] == rest && t[..|b|] == b;
  }

  /** Whichever lines end with a carriage return as well, the same events are read, and nothing is held back. */
  lemma {:induction false} LineEndingsDoNotMatter<V>(items: seq<(Item, Ends)>, json: string -> Option<V>)
    requires forall k :: 0 <= k < |items| ==> Writable(items[k].0)
    ensures EventsIn(Sent(items), json) == Expected(ItemsOf(items), json) && Frames(Sent(items)).1 == ""
  {
    hide Frames, Expected, ParseFrame, BodyWith;
    if items == [] {
      NothingSent(json);
    } else {
      var (item, ends) := items[0];
      var rest, b := Sent(items[1..]), BodyWith(items[0].0, items[0].1.inner);
      TakesOneFrameWith(item, ends, rest);
      LineEndingsDoNotMatter(items[1..], json);
      ReadsBackWith(item, ends.inner, json);
      ParseFramesConcat([b], Frames(rest).0, json);
      ExpectedOneMore(items, json);
    }
  }

  lemma NothingSent<V>(json: string -> Option<V>)
    ensures EventsIn("", json) == Expected([], json) == [] && Frames("").1 == ""
  {
  }

  lemma ExpectedOneMore<V>(items: seq<(Item, Ends)>, json: string -> Option<V>)
    requires items != []
    ensures Expected(ItemsOf(items), json) == EventOf(items[0].0, json) + Expected(ItemsOf(items[1..]), json)
  {
    assert ItemsOf(items)[1..] == ItemsOf(items[1..]);
  }

  lemma ReadsBackWith<V>(item: Item, cr: bool, json: string -> Option<V>)
    requires Writable(item)
    ensures ParseFrames([BodyWith(item, cr)], json) == EventOf(item, json)
  {
    FieldsOfBodyWith(item, cr);
    assert [BodyWith(item, cr)][1..] == [];
  }
}
