/** Splitting and trimming text, as both runtimes' standard libraries do it. */
module Text {

  /** White space that Go and JavaScript agree on; each adds one character of its own. */
  predicate CommonSpace(c: char) {
    || '\t' <= c <= '\r'
    || '\U{2000}' <= c <= '\U{200a}'
    || c in {' ', '\U{a0}', '\U{1680}', '\U{2028}', '\U{2029}', '\U{202f}', '\U{205f}', '\U{3000}'}
  }

  function TrimStart(s: string, space: char -> bool): string {
    if s != [] && space(s[0]) then TrimStart(s[1..], space) else s
  }

  function TrimEnd(s: string, space: char -> bool): (r: string)
    ensures r != [] ==> !space(r[|r| - 1])
    ensures r <= s
  {
    if s != [] && space(s[|s| - 1]) then TrimEnd(s[..|s| - 1], space) else s
  }

  function Trim(s: string, space: char -> bool): string { TrimEnd(TrimStart(s, space), space) }

  /** Text with no white space at either end. */
  predicate Tight(s: string, space: char -> bool) {
    s == "" || (!space(s[0]) && !space(s[|s| - 1]))
  }

  predicate AllSpace(s: string, space: char -> bool) { forall k :: 0 <= k < |s| ==> space(s[k]) }

  /** Trimming takes white space off both ends and leaves none there. */
  lemma {:induction false} TrimTakesSpaceOff(s: string, space: char -> bool) returns (before: string, after: string)
    ensures s == before + Trim(s, space) + after
    ensures AllSpace(before, space) && AllSpace(after, space) && Tight(Trim(s, space), space)
  {
    before := StartTakesSpaceOff(s, space);
    var rest := TrimStart(s, space);
    after := EndTakesSpaceOff(rest, space);
    assert s == before + rest == before + (Trim(s, space) + after);
    if Trim(s, space) != "" {
      assert Trim(s, space)[0] == rest[0];
    }
  }

  lemma {:induction false} StartTakesSpaceOff(s: string, space: char -> bool) returns (before: string)
    ensures s == before + TrimStart(s, space) && AllSpace(before, space)
    ensures TrimStart(s, space) != "" ==> !space(TrimStart(s, space)[0])
  {
    before := "";
    if s != "" && space(s[0]) {
      before := StartTakesSpaceOff(s[1..], space);
      assert s == [s[0]] + s[1..] == [s[0]] + (before + TrimStart(s, space)) == [s[0]] + before + TrimStart(s, space);
      before := [s[0]] + before;
    }
  }

  lemma {:induction false} EndTakesSpaceOff(s: string, space: char -> bool) returns (after: string)
    ensures s == TrimEnd(s, space) + after && AllSpace(after, space)
  {
    after := "";
    if s != "" && space(s[|s| - 1]) {
      var n := |s| - 1;
      after := EndTakesSpaceOff(s[..n], space);
      assert s == s[..n] + [s[n]] == TrimEnd(s, space) + after + [s[n]] == TrimEnd(s, space) + (after + [s[n]]);
      after := after + [s[n]];
    }
  }

  /** The parts between separators; always at least one. */
  function Split(s: string, sep: char): (r: seq<string>)
    ensures r != []
  {
    if s == [] then [""]
    else
      var rest := Split(s[1..], sep);
      if s[0] == sep then [""] + rest else [[s[0]] + rest[0]] + rest[1..]
  }

  lemma {:induction false} SplitOfOne(s: string, sep: char)
    requires sep !in s
    ensures Split(s, sep) == [s]
  {
    if s != [] {
      SplitOfOne(s[1..], sep);
      assert [s[0]] + s[1..] == s;
    }
  }

  /** The first part runs up to the first separator, and the others are the parts of what follows it. */
  lemma {:induction false} SplitAtFirst(s: string, sep: char) returns (rest: string)
    ensures sep !in Split(s, sep)[0]
    ensures |Split(s, sep)| == 1 ==> s == Split(s, sep)[0]
    ensures |Split(s, sep)| > 1 ==> s == Split(s, sep)[0] + [sep] + rest && Split(rest, sep) == Split(s, sep)[1..]
  {
    rest := "";
    if s != "" {
      if s[0] == sep {
        rest := s[1..];
        assert s == [] + [sep] + rest;
      } else {
        rest := SplitAtFirst(s[1..], sep);
        var first := Split(s[1..], sep)[0];
        assert s == [s[0]] + s[1..];
        assert |Split(s, sep)| > 1 ==> [s[0]] + (first + [sep] + rest) == [s[0]] + first + [sep] + rest;
      }
    }
  }

  lemma {:induction false} SplitOfTwo(a: string, sep: char, b: string)
    requires sep !in a
    ensures Split(a + [sep] + b, sep) == [a] + Split(b, sep)
  {
    var t := a + [sep] + b;
    if a == [] {
      assert t[1..] == b;
    } else {
      assert t[1..] == a[1..] + [sep] + b;
      SplitOfTwo(a[1..], sep, b);
      assert [a[0]] + a[1..] == a;
      assert ([a[1..]] + Split(b, sep))[1..] == Split(b, sep);
    }
  }
}
