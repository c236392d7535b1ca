/** Terminal escape sequences: recognising, stripping, and deleting them as a rewriting system.

    A sequence is ESC, '[', any number of parameter bytes (digits and ';'), one letter: a subset
    of the control sequences of section 5.4 of ECMA-48. */
module Ansi {

  newtype Byte = x: int | 0 <= x < 256

  type Text = seq<Byte>

  const ESC: Byte := 27
  const BRACKET: Byte := 91
  const NEWLINE: Byte := 10

  predicate IsParam(b: Byte) {
    48 <= b <= 57 || b == 59
  }

  predicate IsLetter(b: Byte) {
    65 <= b <= 90 || 97 <= b <= 122
  }

  predicate IsEscape(e: Text) {
    && |e| >= 3
    && e[0] == ESC
    && e[1] == BRACKET
    && (forall i :: 2 <= i < |e| - 1 ==> IsParam(e[i]))
    && IsLetter(e[|e| - 1])
  }

  predicate EscapeAt(s: Text, i: nat, k: nat)
    requires i <= k <= |s|
  {
    IsEscape(s[i..k])
  }

  /** No part of `s` is an escape sequence. */
  ghost predicate Clean(s: Text) {
    forall i, k :: 0 <= i <= k <= |s| ==> !EscapeAt(s, i, k)
  }

  function ParamRun(s: Text): (n: nat)
    ensures n <= |s|
    ensures forall i :: 0 <= i < n ==> IsParam(s[i])
    ensures n < |s| ==> !IsParam(s[n])
  {
    if s != [] && IsParam(s[0]) then 1 + ParamRun(s[1..]) else 0
  }

  /** Length of the escape sequence `s` starts with; 0 if it starts with none. */
  function MatchLen(s: Text): (n: nat)
    ensures n <= |s|
    ensures n > 0 ==> EscapeAt(s, 0, n)
    ensures forall k :: 0 <= k <= |s| && EscapeAt(s, 0, k) ==> k == n
  {
    if |s| >= 3 && s[0] == ESC && s[1] == BRACKET then
      var p := ParamRun(s[2..]);
      assert forall i :: 2 <= i < 2 + p ==> s[i] == s[2..][i - 2];
      assert 2 + p < |s| ==> s[2 + p] == s[2..][p];
      if 2 + p < |s| && IsLetter(s[2 + p]) then 3 + p else 0
    else 0
  }

  /** One pass from left to right that drops every escape sequence it meets. */
  function Strip(s: Text): Text {
    if s == [] then []
    else
      var n := MatchLen(s);
      if n > 0 then Strip(s[n..]) else [s[0]] + Strip(s[1..])
  }

  // ---- Where a text may be cut without changing how it is stripped ----

  /** No escape sequence of `u + v` lies across the boundary. */
  ghost predicate Splits(u: Text, v: Text) {
    forall i, k :: 0 <= i < |u| < k <= |u| + |v| ==> !EscapeAt(u + v, i, k)
  }

  lemma SplitsAfter(u: Text, v: Text, d: nat)
    requires Splits(u, v) && d <= |u|
    ensures Splits(u[d..], v)
  {
    var r := u[d..] + v;
    assert r == (u + v)[d..];
    forall i, k | 0 <= i < |u[d..]| < k <= |r|
      ensures !EscapeAt(r, i, k)
    {
      SliceOfSlice(u + v, d, |u + v|, i, k);
      assert (u + v)[d..|u + v|] == r;
      assert !EscapeAt(u + v, d + i, d + k);
    }
  }

  lemma SliceOfSlice(s: Text, lo: nat, hi: nat, i: nat, k: nat)
    requires lo <= hi <= |s| && i <= k <= hi - lo
    ensures s[lo..hi][i..k] == s[lo + i..lo + k]
    ensures EscapeAt(s[lo..hi], i, k) <==> EscapeAt(s, lo + i, lo + k)
  {
    var a, b := s[lo..hi][i..k], s[lo + i..lo + k];
    assert forall j :: 0 <= j < |a| ==> a[j] == s[lo..hi][i + j] == s[lo + i + j] == b[j];
  }

  lemma EscapeInPrefix(u: Text, v: Text, i: nat, k: nat)
    requires i <= k <= |u|
    ensures EscapeAt(u + v, i, k) <==> EscapeAt(u, i, k)
  {
    assert (u + v)[i..k] == u[i..k];
  }

  lemma MatchLenSplit(u: Text, v: Text)
    requires Splits(u, v) && u != []
    ensures MatchLen(u + v) == MatchLen(u)
  {
    var n := MatchLen(u);
    var m := MatchLen(u + v);
    EscapeInPrefix(u, v, 0, n);
    assert m <= |u|;
    EscapeInPrefix(u, v, 0, m);
  }

  lemma {:induction false} StripSplit(u: Text, v: Text)
    requires Splits(u, v)
    ensures Strip(u + v) == Strip(u) + Strip(v)
    decreases |u|
  {
    if u == [] {
      assert u + v == v;
    } else {
      var n := MatchLen(u);
      MatchLenSplit(u, v);
      var d := if n > 0 then n else 1;
      assert (u + v)[d..] == u[d..] + v;
      SplitsAfter(u, v, d);
      StripSplit(u[d..], v);
    }
  }

  lemma {:induction false} StripOfClean(s: Text)
    requires Clean(s)
    ensures Strip(s) == s
  {
    if s != [] {
      assert MatchLen(s) == 0;
      CleanPart(s, 1, |s|);
      assert s[1..|s|] == s[1..];
      StripOfClean(s[1..]);
    }
  }

  lemma CleanPart(s: Text, lo: nat, hi: nat)
    requires Clean(s) && lo <= hi <= |s|
    ensures Clean(s[lo..hi])
  {
    forall i, k | 0 <= i <= k <= hi - lo
      ensures !EscapeAt(s[lo..hi], i, k)
    {
      SliceOfSlice(s, lo, hi, i, k);
    }
  }

  /** ESC occurs in an escape sequence only at its start. */
  lemma EscStartsASplit(u: Text, v: Text)
    requires v != [] && v[0] == ESC
    ensures Splits(u, v)
  {
    forall i, k | 0 <= i < |u| < k <= |u| + |v|
      ensures !EscapeAt(u + v, i, k)
    {
      assert (u + v)[i..k][|u| - i] == ESC;
    }
  }

  /** A newline occurs in no escape sequence. */
  lemma NewlineEndsASplit(u: Text, v: Text)
    requires u != [] ==> u[|u| - 1] == NEWLINE
    ensures Splits(u, v)
  {
    forall i, k | 0 <= i < |u| < k <= |u| + |v|
      ensures !EscapeAt(u + v, i, k)
    {
      assert (u + v)[i..k][|u| - 1 - i] == NEWLINE;
    }
  }

  // ---- The unfinished escape sequence at the end of a text ----

  /** A non-empty proper prefix of an escape sequence. */
  predicate IsOpen(t: Text) {
    && t != []
    && t[0] == ESC
    && (|t| >= 2 ==> t[1] == BRACKET)
    && forall i :: 2 <= i < |t| ==> IsParam(t[i])
  }

  predicate OpenAt(s: Text, i: nat)
    requires i <= |s|
  {
    IsOpen(s[i..])
  }

  /** Where the unfinished escape sequence at the end of `s` starts; |s| if there is none. */
  function TailStart(s: Text): (p: nat)
    ensures p <= |s|
    ensures p < |s| ==> OpenAt(s, p)
    ensures forall i :: 0 <= i < |s| && OpenAt(s, i) ==> i == p
  {
    if s == [] then 0
    else
      var q := 1 + TailStart(s[1..]);
      assert forall i :: 1 <= i <= |s| ==> OpenAt(s, i) == OpenAt(s[1..], i - 1) by {
        forall i | 1 <= i <= |s|
          ensures OpenAt(s, i) == OpenAt(s[1..], i - 1)
        {
          assert s[1..][i - 1..] == s[i..];
        }
      }
      if q < |s| then
        assert s[0..] == s && s[q] == s[q..][0] == ESC;
        q
      else if OpenAt(s, 0) then 0
      else |s|
  }

  lemma OpenIsClean(t: Text)
    requires IsOpen(t)
    ensures Clean(t) && Strip(t) == t
  {
    forall i, k | 0 <= i <= k <= |t|
      ensures !EscapeAt(t, i, k)
    {
      assert k - i >= 3 ==> t[i..k][k - i - 1] == t[k - 1];
    }
    StripOfClean(t);
  }

  /** The part of `u` in an escape sequence across the boundary is an open tail of `u`. */
  lemma AcrossIsOpen(u: Text, v: Text, i: nat, k: nat)
    requires i < |u| < k <= |u| + |v|
    ensures EscapeAt(u + v, i, k) ==> OpenAt(u, i)
  {
    var e := (u + v)[i..k];
    assert forall j :: 0 <= j < |u| - i ==> u[i..][j] == e[j];
  }

  lemma NoTailSplits(u: Text, v: Text)
    requires TailStart(u) == |u|
    ensures Splits(u, v)
  {
    forall i, k | 0 <= i < |u| < k <= |u| + |v|
      ensures !EscapeAt(u + v, i, k)
    {
      AcrossIsOpen(u, v, i, k);
    }
  }

  lemma StripAtEsc(a: Text, w: Text)
    requires w != [] && w[0] == ESC
    ensures Strip(a + w) == Strip(a) + Strip(w)
  {
    EscStartsASplit(a, w);
    StripSplit(a, w);
  }

  /** Stripping text cut just before its open tail, whatever comes after. */
  lemma StripAtTail(a: Text, t: Text, v: Text)
    requires IsOpen(t)
    ensures Strip(a + t) == Strip(a) + t
    ensures Strip(a + t + v) == Strip(a) + Strip(t + v)
  {
    assert Strip(a + t) == Strip(a) + t by {
      StripAtEsc(a, t);
      OpenIsClean(t);
    }
    assert a + t + v == a + (t + v);
    StripAtEsc(a, t + v);
  }

  lemma CleanThenOpen(a: Text, t: Text)
    requires Clean(a) && IsOpen(t)
    ensures Clean(a + t)
  {
    forall i, k | 0 <= i <= k <= |a + t|
      ensures !EscapeAt(a + t, i, k)
    {
      if k <= |a| {
        EscapeInPrefix(a, t, i, k);
      } else {
        assert k - i >= 3 ==> (a + t)[i..k][k - i - 1] == (a + t)[k - 1] == t[k - 1 - |a|];
      }
    }
  }

  lemma CleanPrefix(a: Text, b: Text)
    requires Clean(a + b)
    ensures Clean(a)
  {
    CleanPart(a + b, 0, |a|);
    assert (a + b)[0..|a|] == a;
  }

  /** If a stream strips clean, so does every prefix of it. */
  lemma StripCleanPrefix(u: Text, v: Text)
    requires Clean(Strip(u + v))
    ensures Clean(Strip(u))
  {
    var p := TailStart(u);
    if p == |u| {
      NoTailSplits(u, v);
      StripSplit(u, v);
      CleanPrefix(Strip(u), Strip(v));
    } else {
      var a, t := u[..p], u[p..];
      assert u == a + t;
      StripAtTail(a, t, v);
      CleanPrefix(Strip(a), Strip(t + v));
      CleanThenOpen(Strip(a), t);
    }
  }

  lemma {:induction false} StripKeepsPlainPrefix(c: Text, m: nat)
    requires m <= |c|
    requires forall j :: 0 <= j < m ==> c[j] != ESC
    ensures m <= |Strip(c)| && Strip(c)[..m] == c[..m]
  {
    if m > 0 {
      assert MatchLen(c) == 0;
      StripKeepsPlainPrefix(c[1..], m - 1);
      assert c[..m] == [c[0]] + c[1..][..m - 1];
      assert Strip(c) == [c[0]] + Strip(c[1..]);
    }
  }

  lemma EscapeAcrossSurvives(t: Text, c: Text, i: nat, k: nat)
    requires i < |t| < k <= |t| + |c|
    ensures EscapeAt(t + c, i, k) ==>
              k <= |t + Strip(c)| && EscapeAt(t + Strip(c), i, k)
  {
    var e := (t + c)[i..k];
    if IsEscape(e) {
      var m := k - |t|;
      assert forall j :: 0 <= j < m ==> c[j] == e[|t| - i + j];
      StripKeepsPlainPrefix(c, m);
      assert Strip(c)[..m] == c[..m];
      assert (t + Strip(c))[..k] == t + Strip(c)[..m] == t + c[..m] == (t + c)[..k];
      assert (t + Strip(c))[..k][i..] == (t + c)[..k][i..];
      assert (t + Strip(c))[i..k] == e;
    }
  }

  /** If `t` followed by the stripped `c` is clean, no sequence of `t + c` lies across the cut. */
  lemma CleanJoinSplits(t: Text, c: Text)
    requires Clean(t + Strip(c))
    ensures Splits(t, c)
  {
    forall i, k | 0 <= i < |t| < k <= |t| + |c|
      ensures !EscapeAt(t + c, i, k)
    {
      EscapeAcrossSurvives(t, c, i, k);
    }
  }

  /** Stripping in two steps equals stripping at once, as long as the result is clean. */
  lemma StripStep(u: Text, c: Text)
    requires Clean(Strip(u + c))
    ensures Strip(Strip(u) + c) == Strip(u + c)
  {
    StripCleanPrefix(u, c);
    var p := TailStart(u);
    if p == |u| {
      NoTailSplits(u, c);
      StripSplit(u, c);
      CleanJoinSplits(Strip(u), c);
      StripSplit(Strip(u), c);
      StripOfClean(Strip(u));
    } else {
      var a, t := u[..p], u[p..];
      assert u == a + t;
      StripAtTail(a, t, c);
      CleanPrefix(Strip(a), t);
      StripOfClean(Strip(a));
      StripAtTail(Strip(a), t, c);
    }
  }

  // ---- Deleting escape sequences, as a rewriting system ----

  /** `s2` is `s1` with one escape sequence deleted. */
  ghost predicate Deletes(s1: Text, s2: Text) {
    exists i, k :: 0 <= i <= k <= |s1| && EscapeAt(s1, i, k) && s2 == s1[..i] + s1[k..]
  }

  ghost predicate IsRun(path: seq<Text>) {
    && path != []
    && forall i :: 0 <= i < |path| - 1 ==> Deletes(path[i], path[i + 1])
  }

  ghost predicate Reaches(s: Text, t: Text) {
    exists path: seq<Text> :: IsRun(path) && path[0] == s && path[|path| - 1] == t
  }

  /** Append a byte to clean text and delete the sequence it may complete. */
  function PushByte(n: Text, b: Byte): Text {
    var p := TailStart(n);
    if p + 2 <= |n| && IsLetter(b) then n[..p] else n + [b]
  }

  function PushBytes(n: Text, s: Text): Text {
    if s == [] then n else PushByte(PushBytes(n, s[..|s| - 1]), s[|s| - 1])
  }

  /** The text left when no more escape sequence can be deleted. */
  function Reduce(s: Text): Text {
    PushBytes([], s)
  }

  lemma {:induction false} PushBytesAppend(n: Text, s: Text, t: Text)
    ensures PushBytes(n, s + t) == PushBytes(PushBytes(n, s), t)
  {
    if t == [] {
      assert s + t == s;
    } else {
      assert (s + t)[..|s + t| - 1] == s + t[..|t| - 1];
      PushBytesAppend(n, s, t[..|t| - 1]);
    }
  }

  lemma PushByteOnClean(n: Text, b: Byte)
    requires Clean(n)
    ensures Clean(PushByte(n, b))
    ensures PushByte(n, b) == n + [b] || Deletes(n + [b], PushByte(n, b))
    ensures PushByte(n, b) == n + [b] <==> Clean(n + [b])
  {
    var p := TailStart(n);
    var s := n + [b];
    forall i, k | 0 <= i <= k < |s|
      ensures !EscapeAt(s, i, k)
    {
      EscapeInPrefix(n, [b], i, k);
    }
    forall i | 0 <= i <= |s|
      ensures EscapeAt(s, i, |s|) ==> i == p && p + 2 <= |n| && IsLetter(b)
    {
      var e := s[i..|s|];
      assert e != [] ==> e[|e| - 1] == b;
      if i < |n| {
        AcrossIsOpen(n, [b], i, |s|);
      }
    }
    if p + 2 <= |n| && IsLetter(b) {
      var e := s[p..|s|];
      assert forall j :: 0 <= j < |n| - p ==> e[j] == n[p..][j];
      assert e[|e| - 1] == b;
      assert EscapeAt(s, p, |s|);
      assert n[..p] == s[..p] + s[|s|..];
      CleanPart(n, 0, p);
      assert n[0..p] == n[..p];
    }
  }

  lemma {:induction false} ReduceIsClean(s: Text)
    ensures Clean(Reduce(s))
  {
    if s != [] {
      ReduceIsClean(s[..|s| - 1]);
      PushByteOnClean(Reduce(s[..|s| - 1]), s[|s| - 1]);
    }
  }

  lemma {:induction false} ReduceOfClean(s: Text)
    requires Clean(s)
    ensures Reduce(s) == s
  {
    if s != [] {
      var a := s[..|s| - 1];
      assert s == a + [s[|s| - 1]];
      CleanPart(s, 0, |s| - 1);
      ReduceOfClean(a);
      PushByteOnClean(a, s[|s| - 1]);
    }
  }

  lemma {:induction false} PushBytesOpen(n: Text, t: Text)
    requires IsOpen(t)
    ensures PushBytes(n, t) == n + t
  {
    var a, b := t[..|t| - 1], t[|t| - 1];
    assert !IsLetter(b);
    if |t| == 1 {
      assert PushBytes(n, a) == n;
      assert t == [b];
    } else {
      PushBytesOpen(n, a);
      assert n + a + [b] == n + t;
    }
  }

  lemma PushBytesEscape(n: Text, e: Text)
    requires IsEscape(e)
    ensures PushBytes(n, e) == n
  {
    var a := e[..|e| - 1];
    PushBytesOpen(n, a);
    assert (n + a)[|n|..] == a;
    assert OpenAt(n + a, |n|);
    assert TailStart(n + a) == |n|;
    assert (n + a)[..|n|] == n;
  }

  lemma DeletingKeepsReduce(s1: Text, s2: Text)
    requires Deletes(s1, s2)
    ensures Reduce(s1) == Reduce(s2) && |s2| < |s1|
  {
    var i, k :| 0 <= i <= k <= |s1| && EscapeAt(s1, i, k) && s2 == s1[..i] + s1[k..];
    var u, e, v := s1[..i], s1[i..k], s1[k..];
    assert s1 == u + e + v;
    PushBytesAppend([], u + e, v);
    PushBytesAppend([], u, e);
    PushBytesEscape(Reduce(u), e);
    PushBytesAppend([], u, v);
  }

  lemma RunTail(path: seq<Text>)
    requires IsRun(path) && |path| > 1
    ensures IsRun(path[1..]) && Deletes(path[0], path[1])
  {
    var q := path[1..];
    forall i | 0 <= i < |q| - 1
      ensures Deletes(q[i], q[i + 1])
    {
      assert q[i] == path[i + 1] && q[i + 1] == path[i + 2];
    }
  }

  lemma {:induction false} RunKeepsReduce(path: seq<Text>)
    requires IsRun(path)
    ensures Reduce(path[0]) == Reduce(path[|path| - 1])
  {
    if |path| > 1 {
      RunTail(path);
      DeletingKeepsReduce(path[0], path[1]);
      RunKeepsReduce(path[1..]);
    }
  }

  lemma ReachesTrans(a: Text, b: Text, c: Text)
    requires Reaches(a, b) && Reaches(b, c)
    ensures Reaches(a, c)
  {
    var p: seq<Text> :| IsRun(p) && p[0] == a && p[|p| - 1] == b;
    var q: seq<Text> :| IsRun(q) && q[0] == b && q[|q| - 1] == c;
    var r := p + q[1..];
    forall i | 0 <= i < |r| - 1
      ensures Deletes(r[i], r[i + 1])
    {
      if i >= |p| - 1 {
        assert r[i] == q[i - |p| + 1] && r[i + 1] == q[i - |p| + 2];
      }
    }
    assert IsRun(r) && r[0] == a && r[|r| - 1] == c;
  }

  lemma ReachesSelf(a: Text)
    ensures Reaches(a, a)
  {
    assert IsRun([a]) && [a][0] == a;
  }

  lemma ReachesStep(a: Text, b: Text)
    requires Deletes(a, b)
    ensures Reaches(a, b)
  {
    var p := [a, b];
    assert IsRun(p) && p[0] == a && p[|p| - 1] == b;
  }

  lemma DeletesInContext(l: Text, s1: Text, s2: Text, r: Text)
    requires Deletes(s1, s2)
    ensures Deletes(l + s1 + r, l + s2 + r)
  {
    var i, k :| 0 <= i <= k <= |s1| && EscapeAt(s1, i, k) && s2 == s1[..i] + s1[k..];
    SliceInContext(l, s1, i, k, r);
    var x1, x2 := l + s1 + r, l + s2 + r;
    assert EscapeAt(x1, |l| + i, |l| + k) && x2 == x1[..|l| + i] + x1[|l| + k..];
  }

  lemma SliceInContext(l: Text, s: Text, i: nat, k: nat, r: Text)
    requires i <= k <= |s|
    ensures (l + s + r)[|l| + i..|l| + k] == s[i..k]
    ensures l + (s[..i] + s[k..]) + r == (l + s + r)[..|l| + i] + (l + s + r)[|l| + k..]
  {
    var x := l + s + r;
    assert x[..|l| + i] == l + s[..i];
    assert x[|l| + k..] == s[k..] + r;
    assert l + (s[..i] + s[k..]) + r == (l + s[..i]) + (s[k..] + r);
  }

  /** What can be done to a text can be done to it between two others. */
  lemma {:induction false} ReachesInContext(l: Text, path: seq<Text>, r: Text)
    requires IsRun(path)
    ensures Reaches(l + path[0] + r, l + path[|path| - 1] + r)
  {
    if |path| == 1 {
      ReachesSelf(l + path[0] + r);
    } else {
      RunTail(path);
      DeletesInContext(l, path[0], path[1], r);
      ReachesStep(l + path[0] + r, l + path[1] + r);
      ReachesInContext(l, path[1..], r);
      ReachesTrans(l + path[0] + r, l + path[1] + r, l + path[|path| - 1] + r);
    }
  }

  lemma ReachesAround(l: Text, a: Text, b: Text, r: Text)
    requires Reaches(a, b)
    ensures Reaches(l + a + r, l + b + r)
  {
    var path: seq<Text> :| IsRun(path) && path[0] == a && path[|path| - 1] == b;
    ReachesInContext(l, path, r);
  }

  lemma {:induction false} ReachesReduce(s: Text)
    ensures Reaches(s, Reduce(s))
  {
    if s == [] {
      ReachesSelf(s);
    } else {
      var a, b := s[..|s| - 1], s[|s| - 1];
      ReachesReduce(a);
      ReachesAround([], a, Reduce(a), [b]);
      assert [] + a + [b] == s;
      assert [] + Reduce(a) + [b] == Reduce(a) + [b];
      ReduceIsClean(a);
      PushByteOnClean(Reduce(a), b);
      if PushByte(Reduce(a), b) != Reduce(a) + [b] {
        ReachesStep(Reduce(a) + [b], Reduce(s));
        ReachesTrans(s, Reduce(a) + [b], Reduce(s));
      }
    }
  }

  /** Deletion is confluent: whatever two deletion runs did, both can be continued to the same
      clean text, and that text is the only clean one reachable. */
  lemma Confluent(s: Text, a: Text, b: Text)
    requires Reaches(s, a) && Reaches(s, b)
    ensures Reaches(a, Reduce(s)) && Reaches(b, Reduce(s))
    ensures Clean(Reduce(s))
    ensures Clean(a) ==> a == Reduce(s)
  {
    var p: seq<Text> :| IsRun(p) && p[0] == s && p[|p| - 1] == a;
    RunKeepsReduce(p);
    var q: seq<Text> :| IsRun(q) && q[0] == s && q[|q| - 1] == b;
    RunKeepsReduce(q);
    ReachesReduce(a);
    ReachesReduce(b);
    ReduceIsClean(s);
    if Clean(a) {
      ReduceOfClean(a);
    }
  }

  lemma {:induction false} ReachesStrip(s: Text)
    ensures Reaches(s, Strip(s))
  {
    if s == [] {
      ReachesSelf(s);
    } else {
      var n := MatchLen(s);
      if n > 0 {
        assert EscapeAt(s, 0, n) && s[n..] == s[..0] + s[n..];
        ReachesStep(s, s[n..]);
        ReachesStrip(s[n..]);
        ReachesTrans(s, s[n..], Strip(s));
      } else {
        ReachesStrip(s[1..]);
        ReachesAround([s[0]], s[1..], Strip(s[1..]), []);
        assert [s[0]] + s[1..] + [] == s;
        assert [s[0]] + Strip(s[1..]) + [] == Strip(s);
      }
    }
  }

  /** One pass reaches the normal form exactly when what it leaves is clean. */
  lemma StripIsNormalFormIff(s: Text)
    ensures Strip(s) == Reduce(s) <==> Clean(Strip(s))
  {
    ReachesStrip(s);
    Confluent(s, Strip(s), Strip(s));
  }
}
