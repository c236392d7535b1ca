/** Searching, trimming and printing text. Line breaks are '\n' only; blanks are space and tab. */
module Strings {
  import opened Options

  predicate At(s: string, p: string, i: nat) {
    i + |p| <= |s| && s[i..i + |p|] == p
  }

  /** First place from `i` on where `p` occurs in `s`. */
  function FindFrom(s: string, p: string, i: nat): (r: Option<nat>)
    ensures r.Some? ==> i <= r.value && At(s, p, r.value) && forall j :: i <= j < r.value ==> !At(s, p, j)
    ensures r.None? ==> forall j :: i <= j ==> !At(s, p, j)
    decreases |s| - i
  {
    if At(s, p, i) then Some(i)
    else if i < |s| then FindFrom(s, p, i + 1)
    else None
  }

  /** First place where `p` occurs in `s`. */
  function Find(s: string, p: string): (r: Option<nat>)
    ensures r.Some? ==> At(s, p, r.value) && forall j :: 0 <= j < r.value ==> !At(s, p, j)
    ensures r.None? ==> forall j: nat :: !At(s, p, j)
  {
    FindFrom(s, p, 0)
  }

  predicate Contains(s: string, p: string) {
    Find(s, p).Some?
  }

  lemma AtAfter(a: string, b: string, p: string, i: nat)
    ensures At(a + b, p, |a| + i) <==> At(b, p, i)
  {
    if i + |p| <= |b| {
      assert (a + b)[|a| + i..|a| + i + |p|] == b[i..i + |p|];
    }
  }

  lemma AtBefore(a: string, b: string, p: string, i: nat)
    requires i + |p| <= |a|
    ensures At(a + b, p, i) <==> At(a, p, i)
  {
    assert (a + b)[i..i + |p|] == a[i..i + |p|];
  }

  lemma AtChar(s: string, p: string, i: nat, k: nat)
    requires i + k < |s| && k < |p|
    ensures At(s, p, i) ==> s[i + k] == p[k]
  {
    if At(s, p, i) {
      assert s[i..i + |p|][k] == p[k];
    }
  }

  lemma FirstIs(s: string, p: string, i: nat)
    requires At(s, p, i) && forall j :: 0 <= j < i ==> !At(s, p, j)
    ensures Find(s, p) == Some(i)
  {
  }

  /** More text after it does not move the first occurrence. */
  lemma FindInLonger(s: string, rest: string, p: string)
    requires Find(s, p).Some?
    ensures Find(s + rest, p) == Find(s, p)
  {
    var i := Find(s, p).value;
    forall j | 0 <= j <= i
      ensures At(s + rest, p, j) <==> At(s, p, j)
    {
      AtBefore(s, rest, p, j);
    }
    FirstIs(s + rest, p, i);
  }

  lemma FindInShorter(s: string, rest: string, p: string)
    requires Find(s + rest, p).Some? && Find(s + rest, p).value + |p| <= |s|
    ensures Find(s, p) == Find(s + rest, p)
  {
    var i := Find(s + rest, p).value;
    forall j | 0 <= j <= i
      ensures At(s + rest, p, j) <==> At(s, p, j)
    {
      AtBefore(s, rest, p, j);
    }
    FirstIs(s, p, i);
  }

  lemma NotInShorter(s: string, rest: string, p: string)
    requires p != []
    requires Find(s + rest, p).Some? ==> Find(s + rest, p).value >= |s|
    ensures Find(s, p).None?
  {
    if Find(s, p).Some? {
      FindInLonger(s, rest, p);
    }
  }

  lemma CutAt(s: string, p: string, i: nat)
    requires At(s, p, i)
    ensures s == s[..i] + (p + s[i + |p|..])
  {
    assert s == s[..i] + s[i..];
    assert s[i..] == s[i..i + |p|] + s[i + |p|..];
  }

  lemma Parts(a: string, b: string, c: string)
    ensures var s := a + (b + c);
            s[..|a|] == a && s[|a| + |b|..] == c && At(s, b, |a|)
  {
    assert (b + c)[0..|b|] == b;
    AtAfter(a, b + c, b, 0);
    assert (a + (b + c))[|a| + |b|..] == (b + c)[|b|..] == c;
  }

  // ---- Blanks ----

  predicate IsBlank(c: char) {
    c == ' ' || c == '\t'
  }

  predicate IsSpace(c: char) {
    IsBlank(c) || c == '\n'
  }

  function SpaceRun(s: string): (n: nat)
    ensures n <= |s|
    ensures forall i :: 0 <= i < n ==> IsSpace(s[i])
    ensures n < |s| ==> !IsSpace(s[n])
  {
    if s != [] && IsSpace(s[0]) then 1 + SpaceRun(s[1..]) else 0
  }

  function TrimEnd(s: string): (r: string)
    ensures r <= s
    ensures r != [] ==> !IsSpace(r[|r| - 1])
    ensures forall i :: |r| <= i < |s| ==> IsSpace(s[i])
  {
    if s != [] && IsSpace(s[|s| - 1]) then TrimEnd(s[..|s| - 1]) else s
  }

  function Trim(s: string): string {
    TrimEnd(s[SpaceRun(s)..])
  }

  predicate IsTrimmed(s: string) {
    s != [] ==> !IsSpace(s[0]) && !IsSpace(s[|s| - 1])
  }

  lemma TrimIsTrimmed(s: string)
    ensures IsTrimmed(Trim(s))
    ensures |Trim(s)| <= |s|
    ensures IsTrimmed(s) ==> Trim(s) == s
    ensures forall c :: c in Trim(s) ==> c in s
  {
    var n := SpaceRun(s);
    var t := s[n..];
    var r := TrimEnd(t);
    if r != [] {
      assert r[0] == t[0] == s[n];
    }
    if IsTrimmed(s) {
      assert n == 0 || s == [];
      assert t == s;
    }
    assert forall i :: 0 <= i < |r| ==> r[i] == t[i] == s[n + i];
  }

  predicate AllSpace(s: string) {
    forall i :: 0 <= i < |s| ==> IsSpace(s[i])
  }

  lemma TrimEndParts(s: string) returns (right: string)
    ensures AllSpace(right) && s == TrimEnd(s) + right
  {
    var r := TrimEnd(s);
    right := s[|r|..];
    assert forall i :: 0 <= i < |right| ==> right[i] == s[|r| + i];
  }

  /** Trimming takes off white space at both ends and nothing else. */
  lemma TrimParts(s: string) returns (left: string, right: string)
    ensures AllSpace(left) && AllSpace(right) && s == left + (Trim(s) + right)
  {
    left := s[..SpaceRun(s)];
    right := TrimEndParts(s[SpaceRun(s)..]);
    assert s == left + s[SpaceRun(s)..];
  }

  lemma TrimSpaced(name: string)
    requires name != "" && IsTrimmed(name)
    ensures Trim(" " + name) == name
  {
    var s := " " + name;
    assert s[0] == ' ' && s[1] == name[0];
    assert SpaceRun(s) == 1 && s[1..] == name;
    TrimIsTrimmed(name);
  }

  // ---- Lines ----

  function LineLength(s: string): (n: nat)
    ensures n <= |s|
    ensures forall i :: 0 <= i < n ==> s[i] != '\n'
    ensures n < |s| ==> s[n] == '\n'
  {
    if s != [] && s[0] != '\n' then 1 + LineLength(s[1..]) else 0
  }

  /** The lines of `s` without their breaks; a final break starts no further line. */
  function Lines(s: string): (r: seq<string>)
    ensures forall l :: l in r ==> '\n' !in l
    decreases |s|
  {
    if s == [] then []
    else
      var n := LineLength(s);
      [s[..n]] + if n == |s| then [] else Lines(s[n + 1..])
  }

  function JoinLines(lines: seq<string>): string {
    if lines == [] then []
    else if |lines| == 1 then lines[0]
    else lines[0] + "\n" + JoinLines(lines[1..])
  }

  function DropBreaks(s: string): string {
    if s != [] && s[|s| - 1] == '\n' then DropBreaks(s[..|s| - 1]) else s
  }

  // ---- Decimal numbers ----

  const DIGITS := "0123456789"

  predicate IsDigits(s: string) {
    forall i :: 0 <= i < |s| ==> '0' <= s[i] <= '9'
  }

  function Dec(n: nat): (s: string)
    ensures s != [] && IsDigits(s)
  {
    if n < 10 then [DIGITS[n]] else Dec(n / 10) + [DIGITS[n % 10]]
  }

  function Value(s: string): nat {
    if s == [] then 0
    else 10 * Value(s[..|s| - 1]) + if '0' <= s[|s| - 1] <= '9' then s[|s| - 1] as nat - '0' as nat else 0
  }

  lemma {:induction false} DecValue(n: nat)
    ensures Value(Dec(n)) == n
  {
    var d := n % 10;
    assert DIGITS[d] as nat - '0' as nat == d;
    if n < 10 {
      assert [DIGITS[n]][..0] == [];
    } else {
      DecValue(n / 10);
      assert Dec(n)[..|Dec(n)| - 1] == Dec(n / 10);
    }
  }

  lemma DecInjective(m: nat, n: nat)
    ensures Dec(m) == Dec(n) ==> m == n
  {
    DecValue(m);
    DecValue(n);
  }

  /** Cutting at a separator that the first parts do not contain is unambiguous. */
  lemma SplitAtSeparator(a: string, b: string, c: string, d: string, sep: char)
    requires a + [sep] + b == c + [sep] + d
    requires sep !in a && sep !in c
    ensures a == c && b == d
  {
    var s := a + [sep] + b;
    assert s[|a|] == sep && s[|c|] == sep;
    assert forall i :: 0 <= i < |a| ==> s[i] == a[i];
    assert forall i :: 0 <= i < |c| ==> s[i] == c[i];
    assert a == s[..|a|] && c == s[..|a|];
    assert b == s[|a| + 1..] && d == s[|a| + 1..];
  }
}
