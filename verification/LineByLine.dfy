/** Escape sequences do not cross lines, so each line is stripped on its own: exactly when one given
    stream may be cut anywhere. */
module LineByLine {
  import opened Ansi
  import opened LineBuffer

  function StripEach(lines: seq<Text>): (r: seq<Text>)
    ensures |r| == |lines| && forall i :: 0 <= i < |lines| ==> r[i] == Strip(lines[i])
  {
    seq(|lines|, i requires 0 <= i < |lines| => Strip(lines[i]))
  }

  function StripCut(c: Cut): Cut {
    Cut(StripEach(c.done), Strip(c.last))
  }

  // ---- Stripping line by line ----

  lemma NewlineStartsASplit(u: Text, v: Text)
    requires v != [] && v[0] == NEWLINE
    ensures Splits(u, v)
  {
    forall i, k | 0 <= i < |u| < k <= |u| + |v|
      ensures !EscapeAt(u + v, i, k)
    {
      assert (u + v)[i..k][|u| - i] == NEWLINE;
    }
  }

  lemma {:induction false} StripKeepsBytes(s: Text, b: Byte)
    requires b !in s
    ensures b !in Strip(s)
  {
    if s != [] {
      var n := MatchLen(s);
      var d := if n > 0 then n else 1;
      assert forall i :: 0 <= i < |s[d..]| ==> s[d..][i] == s[d + i];
      StripKeepsBytes(s[d..], b);
    }
  }

  lemma StripOfBreak()
    ensures Strip([NEWLINE]) == [NEWLINE]
  {
    assert [NEWLINE][1..] == [];
  }

  lemma StripLine(h: Text, u: Text)
    requires h != [] ==> h[|h| - 1] == NEWLINE
    ensures Strip(h + u) == Strip(h) + Strip(u)
    ensures Strip(u + [NEWLINE]) == Strip(u) + [NEWLINE]
  {
    NewlineEndsASplit(h, u);
    StripSplit(h, u);
    NewlineStartsASplit(u, [NEWLINE]);
    StripSplit(u, [NEWLINE]);
    StripOfBreak();
  }

  lemma CutOfBreak(s: Text)
    ensures CutOf(s + [NEWLINE]) == Cut(Complete(s) + [Unfinished(s)], [])
  {
    assert (s + [NEWLINE])[..|s|] == s;
  }

  /** What follows complete lines. */
  lemma CutAfterHead(h: Text, u: Text)
    requires CutOf(h).last == [] && NEWLINE !in u
    ensures CutOf(h + u) == Cut(Complete(h), u)
  {
    CutAppend(h, u);
    assert [] + u == u;
    CutOfLine(u);
    assert Complete(h) + [] == Complete(h);
  }

  lemma StripCutSnoc(c: Cut, line: Text)
    ensures StripEach(c.done + [line]) == StripEach(c.done) + [Strip(line)]
  {
  }

  lemma BreakIsLineByLine(g: Text)
    requires CutOf(Strip(g)) == StripCut(CutOf(g))
    ensures CutOf(Strip(g + [NEWLINE])) == StripCut(CutOf(g + [NEWLINE]))
  {
    StripLine([], g);
    CutOfBreak(g);
    CutOfBreak(Strip(g));
    StripCutSnoc(CutOf(g), Unfinished(g));
  }

  lemma TailIsLineByLine(h: Text, u: Text)
    requires h != [] ==> h[|h| - 1] == NEWLINE
    requires CutOf(h).last == [] && NEWLINE !in u && CutOf(Strip(h)) == StripCut(CutOf(h))
    ensures CutOf(Strip(h + u)) == StripCut(CutOf(h + u))
  {
    StripLine(h, u);
    StripKeepsBytes(u, NEWLINE);
    CutAfterHead(h, u);
    CutAfterHead(Strip(h), Strip(u));
  }

  /** A text is its unfinished line, or ends its complete lines with a break before that line. */
  lemma LastBreak(s: Text) returns (broken: bool, g: Text, u: Text)
    ensures s == (if broken then g + [NEWLINE] else []) + u
    ensures NEWLINE !in u && (broken ==> |g| < |s|)
  {
    var h := Head(s);
    u := Unfinished(s);
    UnfinishedIsOneLine(s);
    broken := h != [];
    g := if broken then h[..|h| - 1] else [];
    assert broken ==> h == g + [NEWLINE];
  }

  /** Stripping a text strips its lines. */
  lemma {:induction false} StripIsLineByLine(s: Text)
    ensures CutOf(Strip(s)) == StripCut(CutOf(s))
    decreases |s|
  {
    var broken, g, u := LastBreak(s);
    if broken {
      StripIsLineByLine(g);
      BreakIsLineByLine(g);
      CutOfBreak(g);
      TailIsLineByLine(g + [NEWLINE], u);
    } else {
      TailIsLineByLine([], u);
    }
  }

  // ---- Text before the first line ----

  /** `p` put before the first line of `c`. */
  function Prepend(p: Text, c: Cut): Cut {
    if c.done == [] then Cut([], p + c.last) else Cut([p + c.done[0]] + c.done[1..], c.last)
  }

  lemma PrependFeed(p: Text, c: Cut, b: Byte)
    ensures Prepend(p, Feed(c, b)) == Feed(Prepend(p, c), b)
  {
    if b == NEWLINE && c.done != [] {
      assert (c.done + [c.last])[1..] == c.done[1..] + [c.last];
    } else if b != NEWLINE {
      assert p + (c.last + [b]) == p + c.last + [b];
    }
  }

  lemma {:induction false} CutPrepended(p: Text, s: Text)
    requires NEWLINE !in p
    ensures CutOf(p + s) == Prepend(p, CutOf(s))
  {
    if s == [] {
      assert p + s == p;
      CutOfLine(p);
    } else {
      var a, b := s[..|s| - 1], s[|s| - 1];
      assert (p + s)[..|p + s| - 1] == p + a;
      CutPrepended(p, a);
      PrependFeed(p, CutOf(a), b);
    }
  }

  // ---- The buffer with all its lines ----

  function IngestCut(c: Cut, chunk: Text): Cut {
    var t := CutOf(Strip(c.last + chunk));
    Cut(c.done + t.done, t.last)
  }

  function CutAll(chunks: seq<Text>): Cut {
    if chunks == [] then Cut([], []) else IngestCut(CutAll(chunks[..|chunks| - 1]), chunks[|chunks| - 1])
  }

  function Windowed(c: Cut): Buffer {
    Buffer(c.last, LastTen(c.done))
  }

  lemma {:induction false} IngestAllIsWindowed(chunks: seq<Text>)
    ensures IngestAll(EMPTY, chunks) == Windowed(CutAll(chunks))
  {
    if chunks != [] {
      var init := chunks[..|chunks| - 1];
      IngestAllIsWindowed(init);
      LastTenAppend(CutAll(init).done, Complete(Strip(CutAll(init).last + chunks[|chunks| - 1])));
    }
  }

  /** Where the line itself strips clean, the buffer has it right. */
  ghost predicate RightLine(line: Text, kept: Text) {
    Clean(Strip(line)) ==> kept == Strip(line)
  }

  ghost predicate RightLines(lines: seq<Text>, kept: seq<Text>) {
    |kept| == |lines| && forall i :: 0 <= i < |lines| ==> RightLine(lines[i], kept[i])
  }

  /** The buffer's lines against the lines of the stream. */
  ghost predicate Right(stream: Cut, c: Cut) {
    RightLines(stream.done, c.done) && RightLine(stream.last, c.last) && NEWLINE !in c.last
  }

  lemma LongerLine(line: Text, kept: Text, more: Text)
    requires RightLine(line, kept)
    ensures RightLine(line + more, Strip(kept + more))
  {
    if Clean(Strip(line + more)) {
      StripCleanPrefix(line, more);
      StripStep(line, more);
    }
  }

  /** The rest of a line and the lines after it. */
  lemma MoreLines(line: Text, kept: Text, k: Cut)
    requires RightLine(line, kept)
    ensures RightLines(Prepend(line, k).done, StripEach(Prepend(kept, k).done))
    ensures RightLine(Prepend(line, k).last, Strip(Prepend(kept, k).last))
  {
    if k.done == [] {
      LongerLine(line, kept, k.last);
    } else {
      LongerLine(line, kept, k.done[0]);
    }
  }

  lemma RightAppend(a: seq<Text>, x: seq<Text>, b: seq<Text>, y: seq<Text>)
    requires RightLines(a, x) && RightLines(b, y)
    ensures RightLines(a + b, x + y)
  {
    var lines, kept := a + b, x + y;
    forall i | 0 <= i < |lines|
      ensures RightLine(lines[i], kept[i])
    {
      if i >= |a| {
        assert lines[i] == b[i - |a|] && kept[i] == y[i - |a|];
      }
    }
  }

  lemma IngestKeepsRight(stream: Text, c: Cut, chunk: Text)
    requires Right(CutOf(stream), c)
    ensures Right(CutOf(stream + chunk), IngestCut(c, chunk))
  {
    var u, k := Unfinished(stream), CutOf(chunk);
    UnfinishedIsOneLine(stream);
    CutAppend(stream, chunk);
    CutPrepended(u, chunk);
    CutPrepended(c.last, chunk);
    StripIsLineByLine(c.last + chunk);
    UnfinishedIsOneLine(Strip(c.last + chunk));
    MoreLines(u, c.last, k);
    RightAppend(Complete(stream), c.done, Prepend(u, k).done, StripEach(Prepend(c.last, k).done));
  }

  lemma {:induction false} AllChunksRight(chunks: seq<Text>)
    ensures Right(CutOf(Flatten(chunks)), CutAll(chunks))
  {
    if chunks == [] {
      assert Clean([]) && Strip([]) == [];
    } else {
      AllChunksRight(chunks[..|chunks| - 1]);
      IngestKeepsRight(Flatten(chunks[..|chunks| - 1]), CutAll(chunks[..|chunks| - 1]), chunks[|chunks| - 1]);
    }
  }

  // ---- Exactly when a stream may be cut anywhere ----

  /** Every chunking of the stream leaves the buffer that one chunk leaves. */
  ghost predicate StreamSafe(s: Text) {
    forall chunks: seq<Text> :: Flatten(chunks) == s ==> IngestAll(EMPTY, chunks) == BufferOf(Strip(s))
  }

  /** The same for chunks that each bring something. */
  ghost predicate StreamSafeNonEmpty(s: Text) {
    forall chunks: seq<Text> :: Flatten(chunks) == s && NonEmpty(chunks) ==> IngestAll(EMPTY, chunks) == BufferOf(Strip(s))
  }

  /** No line in the window, nor the unfinished one, holds an escape sequence. */
  ghost predicate WindowClean(b: Buffer) {
    Clean(b.partial) && forall i :: 0 <= i < |b.lines| ==> Clean(b.lines[i])
  }

  lemma SameWindow(lines: seq<Text>, kept: seq<Text>)
    requires RightLines(lines, kept)
    requires forall i :: 0 <= i < |LastTen(StripEach(lines))| ==> Clean(LastTen(StripEach(lines))[i])
    ensures LastTen(kept) == LastTen(StripEach(lines))
  {
    var w, w' := LastTen(StripEach(lines)), LastTen(kept);
    var from := |lines| - |w|;
    forall i | 0 <= i < |w|
      ensures w'[i] == w[i]
    {
      assert w[i] == StripEach(lines)[from + i] == Strip(lines[from + i]);
      assert w'[i] == kept[from + i];
      assert RightLine(lines[from + i], kept[from + i]);
    }
  }

  lemma CleanWindowIsSafe(chunks: seq<Text>)
    requires WindowClean(BufferOf(Strip(Flatten(chunks))))
    ensures IngestAll(EMPTY, chunks) == BufferOf(Strip(Flatten(chunks)))
  {
    var s := Flatten(chunks);
    IngestAllIsWindowed(chunks);
    AllChunksRight(chunks);
    StripIsLineByLine(s);
    SameWindow(Complete(s), CutAll(chunks).done);
  }

  lemma {:induction false} UncleanShrinks(s: Text)
    requires !Clean(s)
    ensures |Strip(s)| < |s|
  {
    var i, k :| 0 <= i <= k <= |s| && EscapeAt(s, i, k);
    StripIsShorter(s);
    if MatchLen(s) == 0 {
      assert i > 0;
      SliceOfSlice(s, 1, |s|, i - 1, k - 1);
      assert s[1..|s|] == s[1..];
      UncleanShrinks(s[1..]);
    } else {
      StripIsShorter(s[MatchLen(s)..]);
    }
  }

  lemma {:induction false} StripIsShorter(s: Text)
    ensures |Strip(s)| <= |s|
  {
    if s != [] {
      StripIsShorter(s[if MatchLen(s) > 0 then MatchLen(s) else 1..]);
    }
  }

  lemma CutAllTwo(a: Text, b: Text)
    ensures CutAll([a, b]) == IngestCut(CutOf(Strip(a)), b)
  {
    assert [a, b][..1] == [a] && [a][..0] == [];
    assert [] + a == a;
    assert CutAll([a]) == IngestCut(Cut([], []), a);
    assert [] + CutOf(Strip(a)).done == CutOf(Strip(a)).done;
  }

  /** Stripping the last byte apart strips everything once more. */
  lemma StripLastApart(v: Text, x: Byte)
    ensures Strip(Strip(v) + [x]) == Strip(Strip(v + [x]))
  {
    if TailStart(v) == |v| {
      NoTailSplits(v, [x]);
      StripSplit(v, [x]);
      OneByte(x);
    } else {
      var a, o := v[..TailStart(v)], v[TailStart(v)..];
      assert v == a + o;
      OpenLastApart(a, o, x);
    }
  }

  lemma OneByte(x: Byte)
    ensures Strip([x]) == [x]
  {
    assert [x][1..] == [];
  }

  lemma OpenThenByte(o: Text, x: Byte)
    requires IsOpen(o)
    ensures Strip(o + [x]) == [] || Strip(o + [x]) == o + [x]
  {
    OpenIsClean(o);
    StripLastByte(o, x);
    assert o[0..] == o;
    assert OpenAt(o, 0);
  }

  lemma OpenLastApart(a: Text, o: Text, x: Byte)
    requires IsOpen(o)
    ensures Strip(Strip(a + o) + [x]) == Strip(Strip(a + o + [x]))
  {
    StripAtTail(a, o, [x]);
    OpenThenByte(o, x);
    StripAtTail(Strip(a), o, [x]);
    if Strip(o + [x]) == [] {
      assert Strip(a) + [] == Strip(a) && Strip(Strip(a)) + [] == Strip(Strip(a));
    } else {
      assert Strip(a) + (o + [x]) == Strip(a) + o + [x];
    }
  }

  lemma CutLastByte(h: Text, v: Text, x: Byte)
    requires CutOf(h).last == [] && NEWLINE !in v && x != NEWLINE
    ensures CutAll([h + v, [x]]).last == Strip(Strip(v) + [x])
  {
    CutAllTwo(h + v, [x]);
    StrippedUpTo(h, v);
    StripKeepsBytes(v, NEWLINE);
    var t := Strip(v) + [x];
    StripKeepsBytes(t, NEWLINE);
    CutOfLine(Strip(t));
  }

  predicate NonEmpty(chunks: seq<Text>) {
    forall i :: 0 <= i < |chunks| ==> chunks[i] != []
  }

  lemma ShortIsClean(u: Text)
    requires |u| < 2
    ensures Clean(Strip(u))
  {
    StripIsShorter(u);
  }

  lemma LastByteChunks(h: Text, v: Text, x: Byte)
    requires v != []
    ensures Flatten([h + v, [x]]) == h + (v + [x]) && NonEmpty([h + v, [x]])
  {
    FlattenTwo(h + v, [x]);
    assert h + v + [x] == h + (v + [x]);
  }

  lemma PartialDiffers(chunks: seq<Text>, s: Text)
    requires CutAll(chunks).last != Unfinished(Strip(s))
    ensures IngestAll(EMPTY, chunks) != BufferOf(Strip(s))
  {
    IngestAllIsWindowed(chunks);
  }

  lemma LastApartDiffers(v: Text, x: Byte)
    requires !Clean(Strip(v + [x]))
    ensures v != [] && Strip(Strip(v) + [x]) != Strip(v + [x])
  {
    if v == [] {
      ShortIsClean(v + [x]);
    }
    StripLastApart(v, x);
    UncleanShrinks(Strip(v + [x]));
  }

  /** Its last byte arriving apart, an unclean unfinished line is stripped once more. */
  lemma UncleanPartial(s: Text, h: Text, v: Text, x: Byte)
    requires s == h + (v + [x]) && CutOf(h).last == [] && NEWLINE !in v && x != NEWLINE
    requires !Clean(Strip(v + [x]))
    ensures Flatten([h + v, [x]]) == s && NonEmpty([h + v, [x]])
    ensures IngestAll(EMPTY, [h + v, [x]]) != BufferOf(Strip(s))
  {
    LastApartDiffers(v, x);
    LastByteChunks(h, v, x);
    CutLastByte(h, v, x);
    StrippedUpTo(h, v + [x]);
    PartialDiffers([h + v, [x]], s);
  }

  lemma UnsafePartial(s: Text) returns (chunks: seq<Text>)
    requires !Clean(Unfinished(Strip(s)))
    ensures Flatten(chunks) == s && NonEmpty(chunks) && IngestAll(EMPTY, chunks) != BufferOf(Strip(s))
  {
    StripIsLineByLine(s);
    var h, u := Head(s), Unfinished(s);
    UnfinishedIsOneLine(s);
    HeadLines(s);
    if |u| < 2 {
      ShortIsClean(u);
    }
    var v, x := u[..|u| - 1], u[|u| - 1];
    assert u == v + [x];
    UncleanPartial(s, h, v, x);
    chunks := [h + v, [x]];
  }

  lemma AroundLonger(g: Text, x: Byte, i: nat, a: Text, b: Text)
    requires i < |Complete(g)| && g == a + (Complete(g)[i] + ([NEWLINE] + b))
    requires CutOf(b) == Cut(Complete(g)[i + 1..], Unfinished(g))
    ensures g + [x] == a + (Complete(g)[i] + ([NEWLINE] + (b + [x])))
    ensures CutOf(b + [x]) == Feed(Cut(Complete(g)[i + 1..], Unfinished(g)), x)
  {
    assert (b + [x])[..|b|] == b;
  }

  lemma LastLine(g: Text) returns (a: Text)
    ensures g + [NEWLINE] == a + (Unfinished(g) + ([NEWLINE] + [])) && CutOf(a) == Cut(Complete(g), [])
  {
    a := Head(g);
    HeadLines(g);
  }

  lemma FeedKeeps(c: Cut, x: Byte, i: nat)
    requires i < |c.done|
    ensures var c' := Feed(c, x);
            && i < |c'.done| && c'.done[i] == c.done[i] && c'.done[..i] == c.done[..i]
            && Feed(Cut(c.done[i + 1..], c.last), x) == Cut(c'.done[i + 1..], c'.last)
  {
  }

  /** The text before and after a line. */
  lemma {:induction false} AroundLine(s: Text, i: nat) returns (a: Text, b: Text)
    requires i < |Complete(s)|
    ensures s == a + (Complete(s)[i] + ([NEWLINE] + b))
    ensures CutOf(a) == Cut(Complete(s)[..i], [])
    ensures CutOf(b) == Cut(Complete(s)[i + 1..], Unfinished(s))
    decreases |s|
  {
    var g, x := s[..|s| - 1], s[|s| - 1];
    assert s == g + [x];
    if i == |Complete(g)| {
      a := LastLine(g);
      b := [];
    } else {
      a, b := AroundLine(g, i);
      AroundLonger(g, x, i, a, b);
      FeedKeeps(CutOf(g), x, i);
      b := b + [x];
    }
  }

  lemma DifferAtLine(before: seq<Text>, x: Text, y: Text, after: seq<Text>)
    requires x != y && |after| < RING_CAPACITY
    ensures LastTen(before + [x] + after) != LastTen(before + [y] + after)
  {
    var m, n := before + [x] + after, before + [y] + after;
    var at := |LastTen(m)| - |after| - 1;
    assert LastTen(m)[at] == x && LastTen(n)[at] == y;
  }

  lemma StripEachParts(a: seq<Text>, x: Text, b: seq<Text>)
    ensures StripEach(a + [x] + b) == StripEach(a) + [Strip(x)] + StripEach(b)
  {
  }

  lemma LineThenMore(p: Text, b: Text)
    requires NEWLINE !in p
    ensures CutOf(p + ([NEWLINE] + b)) == Cut([p] + Complete(b), Unfinished(b))
  {
    CutPrepended(p, [NEWLINE] + b);
    BreakFirst(b);
    assert p + [] == p;
  }

  lemma StrippedUpTo(a: Text, l: Text)
    requires CutOf(a).last == [] && NEWLINE !in l
    ensures CutOf(Strip(a + l)) == Cut(StripEach(Complete(a)), Strip(l))
  {
    CutAfterHead(a, l);
    StripIsLineByLine(a + l);
  }

  lemma StripCutCons(p: Text, c: Cut)
    ensures StripCut(Cut([p] + c.done, c.last)).done == [Strip(p)] + StripEach(c.done)
  {
  }

  lemma StrippedMore(p: Text, b: Text)
    requires NEWLINE !in p
    ensures Complete(Strip(p + ([NEWLINE] + b))) == [Strip(p)] + StripEach(Complete(b))
  {
    StripIsLineByLine(p + ([NEWLINE] + b));
    LineThenMore(p, b);
    StripCutCons(p, CutOf(b));
  }

  /** Cut just before its break, an unclean line is stripped once more. */
  lemma CutBeforeBreak(a: Text, l: Text, b: Text)
    requires CutOf(a).last == [] && NEWLINE !in l
    ensures CutAll([a + l, [NEWLINE] + b]).done == StripEach(Complete(a)) + [Strip(Strip(l))] + StripEach(Complete(b))
  {
    CutAllTwo(a + l, [NEWLINE] + b);
    StrippedUpTo(a, l);
    StripKeepsBytes(l, NEWLINE);
    StrippedMore(Strip(l), b);
    var x, y, z := StripEach(Complete(a)), Strip(Strip(l)), StripEach(Complete(b));
    assert x + ([y] + z) == x + [y] + z;
  }

  lemma BreakFirst(b: Text)
    ensures CutOf([NEWLINE] + b) == Cut([[]] + Complete(b), Unfinished(b))
  {
    CutOfBreak([]);
    assert [] + [NEWLINE] == [NEWLINE];
    CutAppend([NEWLINE], b);
    assert [] + b == b;
  }

  lemma UncleanLineAt(s: Text, a: Text, l: Text, b: Text)
    requires CutOf(a).last == [] && NEWLINE !in l && Complete(s) == Complete(a) + [l] + Complete(b)
    requires |Complete(b)| < RING_CAPACITY && !Clean(Strip(l))
    ensures IngestAll(EMPTY, [a + l, [NEWLINE] + b]) != BufferOf(Strip(s))
  {
    IngestAllIsWindowed([a + l, [NEWLINE] + b]);
    CutBeforeBreak(a, l, b);
    UncleanShrinks(Strip(l));
    DifferAtLine(StripEach(Complete(a)), Strip(Strip(l)), Strip(l), StripEach(Complete(b)));
    StripIsLineByLine(s);
    StripEachParts(Complete(a), l, Complete(b));
  }

  lemma AroundAt(lines: seq<Text>, i: nat)
    requires i < |lines|
    ensures lines == lines[..i] + [lines[i]] + lines[i + 1..]
  {
  }

  lemma TwoChunks(a: Text, l: Text, b: Text)
    ensures Flatten([a + l, [NEWLINE] + b]) == a + (l + ([NEWLINE] + b))
  {
    FlattenTwo(a + l, [NEWLINE] + b);
    assert a + l + ([NEWLINE] + b) == a + (l + ([NEWLINE] + b));
  }

  lemma UncleanLine(s: Text, i: nat) returns (chunks: seq<Text>)
    requires i < |Complete(s)| && |Complete(s)| - i <= RING_CAPACITY
    requires !Clean(Strip(Complete(s)[i]))
    ensures Flatten(chunks) == s && NonEmpty(chunks) && IngestAll(EMPTY, chunks) != BufferOf(Strip(s))
  {
    var l := Complete(s)[i];
    var a, b := AroundLine(s, i);
    LineHasNoBreak(s, i);
    TwoChunks(a, l, b);
    AroundAt(Complete(s), i);
    UncleanLineAt(s, a, l, b);
    if l == [] {
      ShortIsClean(l);
    }
    chunks := [a + l, [NEWLINE] + b];
  }

  lemma {:induction false} LineHasNoBreak(s: Text, i: nat)
    requires i < |Complete(s)|
    ensures NEWLINE !in Complete(s)[i]
  {
    var g := s[..|s| - 1];
    if i < |Complete(g)| {
      LineHasNoBreak(g, i);
    } else {
      UnfinishedIsOneLine(g);
    }
  }

  lemma LastTenAt(x: seq<Text>, j: nat) returns (i: nat)
    requires j < |LastTen(x)|
    ensures i < |x| && |x| - i <= RING_CAPACITY && LastTen(x)[j] == x[i]
  {
    i := |x| - |LastTen(x)| + j;
  }

  lemma WindowLine(lines: seq<Text>, j: nat) returns (i: nat)
    requires j < |LastTen(StripEach(lines))|
    ensures i < |lines| && |lines| - i <= RING_CAPACITY
    ensures LastTen(StripEach(lines))[j] == Strip(lines[i])
  {
    i := LastTenAt(StripEach(lines), j);
  }

  lemma UnsafeLine(s: Text, j: nat) returns (chunks: seq<Text>)
    requires j < |LastTen(Complete(Strip(s)))| && !Clean(LastTen(Complete(Strip(s)))[j])
    ensures Flatten(chunks) == s && NonEmpty(chunks) && IngestAll(EMPTY, chunks) != BufferOf(Strip(s))
  {
    StripIsLineByLine(s);
    var i := WindowLine(Complete(s), j);
    chunks := UncleanLine(s, i);
  }

  lemma UnsafeCut(s: Text) returns (chunks: seq<Text>)
    requires !WindowClean(BufferOf(Strip(s)))
    ensures Flatten(chunks) == s && NonEmpty(chunks) && IngestAll(EMPTY, chunks) != BufferOf(Strip(s))
  {
    if !Clean(Unfinished(Strip(s))) {
      chunks := UnsafePartial(s);
    } else {
      var j :| 0 <= j < |LastTen(Complete(Strip(s)))| && !Clean(LastTen(Complete(Strip(s)))[j]);
      chunks := UnsafeLine(s, j);
    }
  }

  /** For one given stream: all its chunkings end in the same buffer if and only if the window and the
      unfinished line that one chunk leaves are clean. Unclean lines that have left the window do no
      harm. Empty chunks make no difference to this. */
  lemma StreamSafeIff(s: Text)
    ensures StreamSafe(s) <==> WindowClean(BufferOf(Strip(s)))
    ensures StreamSafeNonEmpty(s) <==> WindowClean(BufferOf(Strip(s)))
  {
    if WindowClean(BufferOf(Strip(s))) {
      forall chunks: seq<Text> | Flatten(chunks) == s
        ensures IngestAll(EMPTY, chunks) == BufferOf(Strip(s))
      {
        CleanWindowIsSafe(chunks);
      }
    } else {
      var chunks := UnsafeCut(s);
    }
  }
}
