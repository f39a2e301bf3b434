/** Release versions: reading, printing and ordering them. */
module Semver {
  import opened Base
  import opened Text

  datatype Version = Version(major: nat, minor: nat, patch: nat, pre: string)

  const MAX_INT := 0x7fff_ffff_ffff_ffff

  // ---- Reading -------------------------------------------------------------------

  /** What Go's TrimSpace removes. */
  predicate IsSpace(c: char) { CommonSpace(c) || c == '\U{85}' }

  predicate IsDigit(c: char) { '0' <= c <= '9' }

  predicate AllDigits(s: string) { forall k :: 0 <= k < |s| ==> IsDigit(s[k]) }

  function Value(s: string): nat
    requires AllDigits(s)
  {
    if s == [] then 0 else Value(s[..|s| - 1]) * 10 + (s[|s| - 1] - '0') as int
  }

  /** A 64-bit decimal integer with an optional sign of either kind. */
  function Atoi(s: string): Option<int> {
    var signed := s != "" && (s[0] == '-' || s[0] == '+');
    var digits := if signed then s[1..] else s;
    if digits == "" || !AllDigits(digits) then None
    else if signed && s[0] == '-' then
      var n: int := Value(digits);
      if n > MAX_INT + 1 then None else Some(-n)
    else
      if Value(digits) > MAX_INT then None else Some(Value(digits))
  }

  function TrimPrefix(s: string, prefix: string): string {
    if prefix <= s then s[|prefix|..] else s
  }

  function IndexOf(s: string, c: char): (i: Option<nat>)
    ensures i.None? ==> c !in s
    ensures i.Some? ==> i.value < |s| && s[i.value] == c && c !in s[..i.value]
  {
    if s == "" then None
    else if s[0] == c then Some(0)
    else
      var rest := IndexOf(s[1..], c);
      if rest.None? then None
      else
        assert s[..rest.value + 1] == [s[0]] + s[1..][..rest.value];
        Some(rest.value + 1)
  }

  /** The text without white space and the leading v, cut at its first hyphen. */
  function Cut(s: string): Option<(string, string)> {
    var t := TrimPrefix(Trim(s, IsSpace), "v");
    if t == "" then None
    else match IndexOf(t, '-')
      case None => Some((t, ""))
      case Some(i) => if t[i + 1..] == "" then None else Some((t[..i], t[i + 1..]))
  }

  /** One of the three numbers: an integer that is not negative. */
  function Field(part: string): Option<nat> {
    var n := Atoi(part);
    if n.None? || n.value < 0 then None else Some(n.value)
  }

  function Fields(parts: seq<string>, pre: string): Option<Version> {
    if |parts| != 3 || Field(parts[0]).None? || Field(parts[1]).None? || Field(parts[2]).None? then None
    else Some(Version(Field(parts[0]).value, Field(parts[1]).value, Field(parts[2]).value, pre))
  }

  function Parse(s: string): Option<Version> {
    match Cut(s)
    case None => None
    case Some((core, pre)) => Fields(Split(core, '.'), pre)
  }

  /** Reads "1.2.3" or "1.2.3-rc.1", with or without a leading v. */
  method ParseVersion(s: string) returns (version: Option<Version>)
    ensures version == Parse(s)
  {
    var cut := Cut(s);
    if cut.None? {
      return None;
    }
    var parts := Split(cut.value.0, '.');
    if |parts| != 3 {
      return None;
    }
    var fields: seq<nat> := [0, 0, 0];
    for i := 0 to 3
      invariant |fields| == 3
      invariant forall k :: 0 <= k < i ==> Field(parts[k]) == Some(fields[k])
    {
      var n := Atoi(parts[i]);
      if n.None? || n.value < 0 {
        return None;
      }
      fields := fields[i := n.value];
    }
    return Some(Version(fields[0], fields[1], fields[2], cut.value.1));
  }

  // ---- What is a version, and what is not ------------------------------------------

  /** Digits for `n`, perhaps behind a plus. */
  ghost predicate Spells(a: string, n: nat) {
    exists digits :: (a == digits || a == "+" + digits) && digits != "" && AllDigits(digits) && Value(digits) == n <= MAX_INT
  }

  lemma FieldIff(a: string, n: nat)
    requires '-' !in a
    ensures Field(a) == Some(n) <==> Spells(a, n)
  {
    var signed := a != "" && (a[0] == '-' || a[0] == '+');
    var rest := if signed then a[1..] else a;
    if Field(a) == Some(n) {
      assert a == rest || a == "+" + rest;
    }
    if Spells(a, n) {
      var digits :| (a == digits || a == "+" + digits) && digits != "" && AllDigits(digits) && Value(digits) == n <= MAX_INT;
      assert IsDigit(digits[0]);
      assert rest == digits;
    }
  }

  lemma SpellsPlainly(a: string, n: nat)
    requires Spells(a, n)
    ensures '-' !in a && '.' !in a
  {
  }

  /** Three numbers with dots between them and nothing else. */
  ghost predicate IsCore(core: string, v: Version) {
    exists a, b, c :: Spells(a, v.major) && Spells(b, v.minor) && Spells(c, v.patch) && core == a + "." + (b + "." + c)
  }

  lemma CoreIff(core: string, v: Version)
    requires '-' !in core
    ensures Fields(Split(core, '.'), v.pre) == Some(v) <==> IsCore(core, v)
  {
    hide Field, Spells;
    var parts := Split(core, '.');
    if |parts| == 3 {
      var rest := SplitAtFirst(core, '.');
      var last := SplitAtFirst(rest, '.');
      var _ := SplitAtFirst(last, '.');
      assert rest == parts[1] + "." + parts[2];
      assert core == parts[0] + "." + rest;
      assert forall p :: p in parts ==> '-' !in p;
      FieldIff(parts[0], v.major);
      FieldIff(parts[1], v.minor);
      FieldIff(parts[2], v.patch);
    }
    forall a, b, c | Spells(a, v.major) && Spells(b, v.minor) && Spells(c, v.patch) && core == a + "." + (b + "." + c)
      ensures Fields(parts, v.pre) == Some(v)
    {
      SpellsPlainly(a, v.major);
      SpellsPlainly(b, v.minor);
      SpellsPlainly(c, v.patch);
      SplitOfTwo(a, '.', b + "." + c);
      SplitOfTwo(b, '.', c);
      SplitOfOne(c, '.');
      assert parts == [a] + ([b] + [c]) == [a, b, c];
      FieldIff(a, v.major);
      FieldIff(b, v.minor);
      FieldIff(c, v.patch);
    }
  }

  /** Text stands for a version exactly when, without outer white space and one leading v, it is three numbers and perhaps a tag. */
  lemma ParsesIff(s: string, v: Version)
    ensures var t := TrimPrefix(Trim(s, IsSpace), "v");
      Parse(s) == Some(v) <==> exists core :: IsCore(core, v) && t == if v.pre == "" then core else core + "-" + v.pre
  {
    hide Fields, IsCore;
    var t := TrimPrefix(Trim(s, IsSpace), "v");
    if Cut(s).Some? {
      var (core, pre) := Cut(s).value;
      assert '-' !in core && t == if pre == "" then core else core + "-" + pre;
      FieldsKeepTag(Split(core, '.'), pre);
      if pre == v.pre {
        CoreIff(core, v);
      }
    }
    forall core | IsCore(core, v) && t == if v.pre == "" then core else core + "-" + v.pre
      ensures Parse(s) == Some(v)
    {
      CoreIsPlain(core, v);
      if v.pre != "" {
        FirstHyphen(core, v.pre);
      }
      assert Cut(s) == Some((core, v.pre));
      CoreIff(core, v);
    }
  }

  lemma FieldsKeepTag(parts: seq<string>, pre: string)
    ensures Fields(parts, pre).Some? ==> Fields(parts, pre).value.pre == pre
  {
  }

  lemma CoreIsPlain(core: string, v: Version)
    requires IsCore(core, v)
    ensures core != "" && '-' !in core
  {
    var a, b, c :| Spells(a, v.major) && Spells(b, v.minor) && Spells(c, v.patch) && core == a + "." + (b + "." + c);
    SpellsPlainly(a, v.major);
    SpellsPlainly(b, v.minor);
    SpellsPlainly(c, v.patch);
  }

  // ---- Printing, and back ----------------------------------------------------------

  function Digits(n: nat): (s: string)
    ensures s != "" && AllDigits(s)
  {
    var last := ['0' + (n % 10) as char];
    if n < 10 then last else Digits(n / 10) + last
  }

  function String(v: Version): string {
    var core := Digits(v.major) + "." + (Digits(v.minor) + "." + Digits(v.patch));
    if v.pre == "" then core else core + "-" + v.pre
  }

  /** The versions some text stands for: numbers that fit, and no tag ending in white space. */
  predicate Canonical(v: Version) {
    && v.major <= MAX_INT && v.minor <= MAX_INT && v.patch <= MAX_INT
    && (v.pre == "" || !IsSpace(v.pre[|v.pre| - 1]))
  }

  lemma ParsedIsCanonical(s: string)
    ensures Parse(s).Some? ==> Canonical(Parse(s).value)
  {
    if Parse(s).Some? {
      CutIsTight(s);
    }
  }

  lemma CutIsTight(s: string)
    requires Cut(s).Some?
    ensures var pre := Cut(s).value.1; pre == "" || !IsSpace(pre[|pre| - 1])
  {
    var t := Trim(s, IsSpace);
    var u := TrimPrefix(t, "v");
    var pre := Cut(s).value.1;
    if pre != "" {
      assert pre[|pre| - 1] == u[|u| - 1] == t[|t| - 1];
    }
  }

  lemma {:induction false} ReadsDigits(n: nat)
    ensures Value(Digits(n)) == n
  {
    var s := Digits(n);
    if n >= 10 {
      ReadsDigits(n / 10);
      assert s[..|s| - 1] == Digits(n / 10);
    } else {
      assert s[..|s| - 1] == "";
    }
  }

  lemma ReadsNumber(n: nat)
    requires n <= MAX_INT
    ensures Field(Digits(n)) == Some(n)
  {
    ReadsDigits(n);
    var s := Digits(n);
    assert IsDigit(s[0]);
  }

  lemma ReadsCore(v: Version)
    requires Canonical(v)
    ensures Fields(Split(Digits(v.major) + "." + (Digits(v.minor) + "." + Digits(v.patch)), '.'), v.pre) == Some(v)
  {
    var a, b, c := Digits(v.major), Digits(v.minor), Digits(v.patch);
    SplitOfTwo(a, '.', b + "." + c);
    SplitOfTwo(b, '.', c);
    SplitOfOne(c, '.');
    ReadsNumber(v.major);
    ReadsNumber(v.minor);
    ReadsNumber(v.patch);
    assert [a] + ([b] + [c]) == [a, b, c];
  }

  lemma FirstHyphen(core: string, pre: string)
    requires '-' !in core
    ensures var s := core + "-" + pre; IndexOf(s, '-') == Some(|core|) && s[..|core|] == core && s[|core| + 1..] == pre
  {
    var s := core + "-" + pre;
    var i := IndexOf(s, '-').value;
    assert s[|core|] == '-' && s[..|core|] == core;
    assert i <= |core| by { assert '-' !in s[..i]; }
  }

  lemma CutsPrinted(v: Version)
    requires Canonical(v)
    ensures Cut(String(v)) == Some((Digits(v.major) + "." + (Digits(v.minor) + "." + Digits(v.patch)), v.pre))
  {
    hide Digits, IndexOf;
    var core := Digits(v.major) + "." + (Digits(v.minor) + "." + Digits(v.patch));
    var s := String(v);
    assert forall k :: 0 <= k < |core| ==> IsDigit(core[k]) || core[k] == '.';
    assert s[0] == Digits(v.major)[0] && IsDigit(s[0]);
    assert TrimStart(s, IsSpace) == s;
    var last := s[|s| - 1];
    assert !IsSpace(last) by {
      if v.pre == "" {
        assert last == Digits(v.patch)[|Digits(v.patch)| - 1];
      } else {
        assert last == v.pre[|v.pre| - 1];
      }
    }
    assert Trim(s, IsSpace) == s;
    if v.pre == "" {
      assert '-' !in s;
    } else {
      FirstHyphen(core, v.pre);
    }
  }

  /** Every version that any text stands for is read back from its own printed form. */
  lemma PrintedIsReadBack(v: Version)
    requires Canonical(v)
    ensures Parse(String(v)) == Some(v)
  {
    CutsPrinted(v);
    ReadsCore(v);
  }

  // ---- Order -----------------------------------------------------------------------

  function Sign(n: int): int { if n < 0 then -1 else if n > 0 then 1 else 0 }

  function CompareText(a: string, b: string): int {
    if a == "" && b == "" then 0
    else if a == "" then -1
    else if b == "" then 1
    else if a[0] != b[0] then (if a[0] < b[0] then -1 else 1)
    else CompareText(a[1..], b[1..])
  }

  /** -1 if `a` is older, 0 if they are the same, 1 if `a` is newer. */
  function Compare(a: Version, b: Version): int {
    if a.major != b.major then Sign(a.major - b.major)
    else if a.minor != b.minor then Sign(a.minor - b.minor)
    else if a.patch != b.patch then Sign(a.patch - b.patch)
    else if a.pre == b.pre then 0
    else if a.pre == "" then 1
    else if b.pre == "" then -1
    else Sign(CompareText(a.pre, b.pre))
  }

  lemma {:induction false} TextIsOrdered(a: string, b: string)
    ensures CompareText(a, b) == -CompareText(b, a)
    ensures CompareText(a, b) == 0 <==> a == b
    ensures CompareText(a, b) in {-1, 0, 1}
  {
    if a != "" && b != "" && a[0] == b[0] {
      TextIsOrdered(a[1..], b[1..]);
      assert a == [a[0]] + a[1..] && b == [b[0]] + b[1..];
    }
  }

  lemma {:induction false} TextOrderIsTransitive(a: string, b: string, c: string)
    requires CompareText(a, b) <= 0 && CompareText(b, c) <= 0
    ensures CompareText(a, c) <= 0
  {
    if a != "" && b != "" && c != "" && a[0] == b[0] == c[0] {
      TextOrderIsTransitive(a[1..], b[1..], c[1..]);
    }
  }

  /** Swapping the two flips the answer, and only a version itself compares as the same. */
  lemma CompareIsAntisymmetric(a: Version, b: Version)
    ensures Compare(a, b) == -Compare(b, a)
    ensures Compare(a, b) == 0 <==> a == b
  {
    TextIsOrdered(a.pre, b.pre);
  }

  lemma CompareIsTransitive(a: Version, b: Version, c: Version)
    requires Compare(a, b) <= 0 && Compare(b, c) <= 0
    ensures Compare(a, c) <= 0
  {
    TextIsOrdered(a.pre, b.pre);
    TextIsOrdered(b.pre, c.pre);
    TextIsOrdered(a.pre, c.pre);
    if CompareText(a.pre, b.pre) <= 0 && CompareText(b.pre, c.pre) <= 0 {
      TextOrderIsTransitive(a.pre, b.pre, c.pre);
    }
  }

  /** The text order: decided at the first character that differs, and a text comes after its own beginnings. */
  ghost predicate TextBefore(a: string, b: string) {
    exists k :: 0 <= k <= |a| && k < |b| && a[..k] == b[..k] && (k == |a| || a[k] < b[k])
  }

  lemma {:induction false} TextIsByFirstDifference(a: string, b: string)
    ensures CompareText(a, b) < 0 <==> TextBefore(a, b)
  {
    if a == "" || b == "" {
      assert b != "" ==> a[..0] == b[..0];
    } else if a[0] != b[0] {
      assert a[..0] == b[..0];
      forall k | 0 < k <= |a| && k < |b| ensures a[..k] != b[..k] {
        assert a[..k][0] == a[0] && b[..k][0] == b[0];
      }
    } else {
      TextIsByFirstDifference(a[1..], b[1..]);
      if TextBefore(a[1..], b[1..]) {
        var k :| 0 <= k <= |a[1..]| && k < |b[1..]| && a[1..][..k] == b[1..][..k] && (k == |a[1..]| || a[1..][k] < b[1..][k]);
        assert a[..k + 1] == [a[0]] + a[1..][..k] && b[..k + 1] == [b[0]] + b[1..][..k];
      }
      if TextBefore(a, b) {
        var k :| 0 <= k <= |a| && k < |b| && a[..k] == b[..k] && (k == |a| || a[k] < b[k]);
        assert k > 0;
        assert a[1..][..k - 1] == a[..k][1..] && b[1..][..k - 1] == b[..k][1..];
      }
    }
  }

  /**
    Which order it is: the major number decides, then the minor, then the patch. Between equal
    numbers the release is the newest, and two prereleases go by their tags.
  */
  lemma OlderIff(a: Version, b: Version)
    ensures a.major != b.major ==> (Compare(a, b) == -1 <==> a.major < b.major)
    ensures a.major == b.major && a.minor != b.minor ==> (Compare(a, b) == -1 <==> a.minor < b.minor)
    ensures a.major == b.major && a.minor == b.minor && a.patch != b.patch ==> (Compare(a, b) == -1 <==> a.patch < b.patch)
    ensures a.major == b.major && a.minor == b.minor && a.patch == b.patch ==>
      (Compare(a, b) == -1 <==> a.pre != "" && (b.pre == "" || TextBefore(a.pre, b.pre)))
  {
    TextIsOrdered(a.pre, b.pre);
    TextIsByFirstDifference(a.pre, b.pre);
  }

  /** And so what is offered: any readable version with a larger major, however small the rest. */
  lemma NewerIsByMajorFirst(current: string, candidate: string)
    requires Parse(current).Some? && Parse(candidate).Some?
    ensures var a, b := Parse(current).value, Parse(candidate).value;
      Newer(current, candidate) <==>
        || a.major < b.major
        || (a.major == b.major && a.minor < b.minor)
        || (a.major == b.major && a.minor == b.minor && a.patch < b.patch)
        || (a.(pre := "") == b.(pre := "") && a.pre != "" && (b.pre == "" || TextBefore(a.pre, b.pre)))
  {
    hide Parse, TextBefore;
    var a, b := Parse(current).value, Parse(candidate).value;
    OlderIff(a, b);
    CompareIsAntisymmetric(a, b);
    OneOfThree(a, b);
  }

  lemma OneOfThree(a: Version, b: Version)
    ensures Compare(a, b) in {-1, 0, 1}
  {
    TextIsOrdered(a.pre, b.pre);
  }

  /** A prerelease sorts below its own release and above every release below that. */
  lemma PrereleaseLeadsToItsRelease(v: Version, tag: string, older: Version)
    requires v.pre == "" && tag != "" && older.pre == "" && Compare(older, v) < 0
    ensures Compare(older, v.(pre := tag)) < 0 && Compare(v.(pre := tag), v) < 0
  {
    CompareIsAntisymmetric(older, v);
  }

  /** Whether `candidate` is worth offering over `current`; text that is no version never is. */
  predicate Newer(current: string, candidate: string) {
    && Parse(current).Some? && Parse(candidate).Some?
    && Compare(Parse(candidate).value, Parse(current).value) > 0
  }

  /** An update never offers the way back, directly or through others. */
  lemma NewerIsAStrictOrder(a: string, b: string, c: string)
    ensures Newer(a, b) ==> !Newer(b, a)
    ensures Newer(a, b) && Newer(b, c) ==> Newer(a, c)
    ensures Parse(a).Some? && Parse(b).Some? ==> (Newer(a, b) || Newer(b, a) <==> Parse(a) != Parse(b))
  {
    if Parse(a).Some? && Parse(b).Some? {
      var u, v := Parse(a).value, Parse(b).value;
      CompareIsAntisymmetric(u, v);
      if Newer(a, b) && Newer(b, c) {
        var w := Parse(c).value;
        CompareIsAntisymmetric(v, w);
        CompareIsAntisymmetric(u, w);
        CompareIsTransitive(u, v, w);
        if Compare(u, w) == 0 {
          CompareIsTransitive(v, w, u);
        }
      }
    }
  }
}
