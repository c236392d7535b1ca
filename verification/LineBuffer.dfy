/** Reassembling a byte stream that arrives in arbitrary chunks into complete, stripped lines. */
module LineBuffer {
  import opened Ansi

  const RING_CAPACITY := 10

  /** The abstract value of a buffer: the unfinished last line and the window of complete ones. */
  datatype Buffer = Buffer(partial: Text, lines: seq<Text>)

  const EMPTY := Buffer([], [])

  // ---- Lines of a text ----

  /** A text cut at its newlines: the complete lines and the unfinished one. */
  datatype Cut = Cut(done: seq<Text>, last: Text)

  function Feed(c: Cut, b: Byte): Cut {
    if b == NEWLINE then Cut(c.done + [c.last], []) else Cut(c.done, c.last + [b])
  }

  function CutOf(s: Text): Cut {
    if s == [] then Cut([], []) else Feed(CutOf(s[..|s| - 1]), s[|s| - 1])
  }

  function Complete(s: Text): seq<Text> {
    CutOf(s).done
  }

  function Unfinished(s: Text): Text {
    CutOf(s).last
  }

  function LastTen(lines: seq<Text>): (r: seq<Text>)
    ensures |r| <= RING_CAPACITY
  {
    if |lines| <= RING_CAPACITY then lines else lines[|lines| - RING_CAPACITY..]
  }

  /** The buffer a text leaves behind: its last at most ten complete lines and what follows them. */
  function BufferOf(s: Text): Buffer {
    Buffer(Unfinished(s), LastTen(Complete(s)))
  }

  function Join(lines: seq<Text>): Text {
    if lines == [] then []
    else if |lines| == 1 then lines[0]
    else Join(lines[..|lines| - 1]) + [NEWLINE] + lines[|lines| - 1]
  }

  // ---- One chunk ----

  function Combined(b: Buffer, chunk: Text): Text {
    Strip(b.partial + chunk)
  }

  predicate CompletesLine(b: Buffer, chunk: Text) {
    Complete(Combined(b, chunk)) != []
  }

  function IngestSpec(b: Buffer, chunk: Text): Buffer {
    var t := Combined(b, chunk);
    Buffer(Unfinished(t), LastTen(b.lines + Complete(t)))
  }

  lemma LinesKept(b: Buffer, chunk: Text)
    requires |b.lines| <= RING_CAPACITY
    ensures !CompletesLine(b, chunk) ==> IngestSpec(b, chunk).lines == b.lines
    ensures CompletesLine(b, chunk) ==> IngestSpec(b, chunk).lines != []
    ensures |IngestSpec(b, chunk).lines| <= RING_CAPACITY
  {
    assert b.lines + [] == b.lines;
  }

  lemma CutOfPrefix(s: Text, start: nat, i: nat)
    requires start <= i < |s|
    ensures CutOf(s[..i + 1]) == Feed(CutOf(s[..i]), s[i])
    ensures s[start..i + 1] == s[start..i] + [s[i]] && s[i + 1..i + 1] == []
  {
    assert s[..i + 1][..i] == s[..i];
  }

  method SplitLines(s: Text) returns (out: seq<Text>)
    ensures out == if s == [] then [] else Complete(s) + [Unfinished(s)]
  {
    if s == [] {
      return [];
    }
    out := [];
    var start := 0;
    for i := 0 to |s|
      invariant start <= i
      invariant CutOf(s[..i]) == Cut(out, s[start..i])
    {
      CutOfPrefix(s, start, i);
      if s[i] == NEWLINE {
        out := out + [s[start..i]];
        start := i + 1;
      }
    }
    assert s[..|s|] == s && s[start..|s|] == s[start..];
    out := out + [s[start..]];
  }

  method JoinLines(lines: seq<Text>) returns (out: Text)
    ensures out == Join(lines)
  {
    out := [];
    for i := 0 to |lines|
      invariant out == Join(lines[..i])
    {
      assert lines[..i + 1][..i] == lines[..i];
      if i > 0 {
        out := out + [NEWLINE];
      }
      out := out + lines[i];
    }
    assert lines[..|lines|] == lines;
  }

  class AssetBuffer {
    var partial: Text
    var lines: seq<Text>

    predicate Valid()
      reads this
    {
      |lines| <= RING_CAPACITY
    }

    constructor ()
      ensures Valid() && Value() == EMPTY
    {
      partial, lines := [], [];
    }

    function Value(): Buffer
      reads this
    {
      Buffer(partial, lines)
    }

    method Ingest(chunk: Text) returns (added: bool)
      requires Valid()
      modifies this
      ensures Valid()
      ensures Value() == IngestSpec(old(Value()), chunk)
      ensures added == CompletesLine(old(Value()), chunk)
    {
      var combined := Strip(partial + chunk);
      partial := [];
      var segments := SplitLines(combined);
      if |segments| == 0 {
        assert lines + [] == lines;
        return false;
      }
      var complete := segments[..|segments| - 1];
      if segments[|segments| - 1] != [] {
        partial := segments[|segments| - 1];
      }
      if |complete| == 0 {
        assert lines + [] == lines;
        return false;
      }
      lines := lines + complete;
      var overflow := |lines| - RING_CAPACITY;
      if overflow > 0 {
        lines := lines[overflow..];
      }
      return true;
    }

    method Joined() returns (r: Text)
      ensures r == Join(lines)
    {
      r := JoinLines(lines);
    }
  }

  // ---- Any number of chunks ----

  function Flatten(chunks: seq<Text>): Text {
    if chunks == [] then [] else Flatten(chunks[..|chunks| - 1]) + chunks[|chunks| - 1]
  }

  function IngestAll(b: Buffer, chunks: seq<Text>): Buffer {
    if chunks == [] then b
    else IngestSpec(IngestAll(b, chunks[..|chunks| - 1]), chunks[|chunks| - 1])
  }

  lemma {:induction false} UnfinishedIsOneLine(s: Text)
    ensures NEWLINE !in Unfinished(s)
    ensures |Unfinished(s)| <= |s| && s[|s| - |Unfinished(s)|..] == Unfinished(s)
    ensures |Unfinished(s)| < |s| ==> s[|s| - |Unfinished(s)| - 1] == NEWLINE
  {
    if s != [] {
      var a, b := s[..|s| - 1], s[|s| - 1];
      UnfinishedIsOneLine(a);
      if b != NEWLINE {
        var p := |a| - |Unfinished(a)|;
        assert s[p..] == a[p..] + [b];
      }
    }
  }

  lemma {:induction false} CutAppend(a: Text, b: Text)
    ensures var rest := CutOf(Unfinished(a) + b);
            CutOf(a + b) == Cut(Complete(a) + rest.done, rest.last)
  {
    if b == [] {
      assert a + b == a && Unfinished(a) + b == Unfinished(a);
      UnfinishedIsOneLine(a);
      CutOfLine(Unfinished(a));
      assert Complete(a) + [] == Complete(a);
    } else {
      var c, x := b[..|b| - 1], b[|b| - 1];
      assert b == c + [x];
      CutAppend(a, c);
      FeedLast(a, c, x);
      FeedLast(Unfinished(a), c, x);
      FeedParts(Complete(a), CutOf(Unfinished(a) + c), x);
    }
  }

  lemma FeedParts(done: seq<Text>, rest: Cut, x: Byte)
    ensures Feed(Cut(done + rest.done, rest.last), x) == Cut(done + Feed(rest, x).done, Feed(rest, x).last)
  {
    assert done + (rest.done + [rest.last]) == done + rest.done + [rest.last];
  }

  lemma FeedSnoc(s: Text, x: Byte)
    ensures CutOf(s + [x]) == Feed(CutOf(s), x)
  {
    assert (s + [x])[..|s|] == s;
  }

  lemma FeedLast(a: Text, b: Text, x: Byte)
    ensures CutOf(a + (b + [x])) == Feed(CutOf(a + b), x)
  {
    assert a + (b + [x]) == (a + b) + [x];
    FeedSnoc(a + b, x);
  }

  lemma {:induction false} CutOfLine(s: Text)
    requires NEWLINE !in s
    ensures CutOf(s) == Cut([], s)
  {
    if s != [] {
      var a, b := s[..|s| - 1], s[|s| - 1];
      CutOfLine(a);
      assert a + [b] == s;
    }
  }

  /** Everything before the unfinished line: empty, or ending in a newline. */
  function Head(s: Text): (h: Text)
    ensures s == h + Unfinished(s)
    ensures h != [] ==> h[|h| - 1] == NEWLINE
  {
    UnfinishedIsOneLine(s);
    s[..|s| - |Unfinished(s)|]
  }

  lemma HeadLines(s: Text)
    ensures CutOf(Head(s)) == Cut(Complete(s), [])
  {
    var h, u := Head(s), Unfinished(s);
    UnfinishedIsOneLine(s);
    assert Unfinished(h) == [];
    CutAppend(h, u);
    assert [] + u == u;
    CutOfLine(u);
    assert Complete(h) + [] == Complete(h);
  }

  lemma LastTenAppend(a: seq<Text>, b: seq<Text>)
    ensures LastTen(LastTen(a) + b) == LastTen(a + b)
  {
  }

  /** A chunk added to the buffer of a clean text gives the buffer of the stripped longer text. */
  lemma IngestStep(t: Text, c: Text)
    requires Clean(t)
    ensures IngestSpec(BufferOf(t), c) == BufferOf(Strip(t + c))
    ensures CompletesLine(BufferOf(t), c) <==> |Complete(Strip(t + c))| > |Complete(t)|
  {
    StripAfterHead(t, c);
    HeadLines(t);
    var x := Strip(Unfinished(t) + c);
    CutAppend(Head(t), x);
    assert [] + x == x;
    LastTenAppend(Complete(t), Complete(x));
  }

  lemma StripAfterHead(t: Text, c: Text)
    requires Clean(t)
    ensures Strip(t + c) == Head(t) + Strip(Unfinished(t) + c)
  {
    var h, u := Head(t), Unfinished(t);
    assert t + c == h + (u + c);
    NewlineEndsASplit(h, u + c);
    StripSplit(h, u + c);
    CleanPrefix(h, u);
    StripOfClean(h);
  }

  /** Chunk invariance: if the stream strips clean in one pass, however it is cut the buffer ends
      up holding the last at most ten lines of the stripped stream and its unfinished line. */
  lemma {:induction false} ChunkInvariance(chunks: seq<Text>)
    requires Clean(Strip(Flatten(chunks)))
    ensures IngestAll(EMPTY, chunks) == BufferOf(Strip(Flatten(chunks)))
  {
    if chunks != [] {
      var init, c := chunks[..|chunks| - 1], chunks[|chunks| - 1];
      StripCleanPrefix(Flatten(init), c);
      ChunkInvariance(init);
      IngestStep(Strip(Flatten(init)), c);
      StripStep(Flatten(init), c);
    }
  }

  /** However a prefix of the stream `s` is cut, the buffer is the one its single chunk gives. */
  ghost predicate ChunkSafe(s: Text) {
    forall chunks: seq<Text> :: Flatten(chunks) <= s ==>
      IngestAll(EMPTY, chunks) == IngestAll(EMPTY, [Flatten(chunks)])
  }

  lemma IngestOne(s: Text)
    ensures IngestAll(EMPTY, [s]) == BufferOf(Strip(s))
  {
    assert [s][..0] == [];
    assert IngestAll(EMPTY, []) == EMPTY;
    assert [] + s == s;
    assert [] + Complete(Strip(s)) == Complete(Strip(s));
  }

  lemma {:induction false} FirstUnclean(s: Text) returns (y: Text, b: Byte)
    requires !Clean(Strip(s))
    ensures y + [b] <= s
    ensures Clean(Strip(y)) && !Clean(Strip(y + [b]))
    decreases |s|
  {
    y, b := s[..|s| - 1], s[|s| - 1];
    assert y + [b] == s;
    if !Clean(Strip(y)) {
      y, b := FirstUnclean(y);
    }
  }

  /** When the last byte spoils a clean strip, stripping again what was stripped removes it. */
  lemma SpoilingByte(y: Text, b: Byte)
    requires Clean(Strip(y)) && !Clean(Strip(y + [b]))
    ensures Strip(y + [b]) == Strip(y) + [b]
    ensures Unfinished(Strip(Strip(y) + [b])) != Unfinished(Strip(y) + [b])
  {
    if TailStart(y) < |y| {
      TailIsRestored(y, b);
      StripLastByte(Strip(y), b);
    } else {
      NoTailSplits(y, [b]);
      StripSplit(y, [b]);
      assert Strip([b]) == [b];
      LastByteLeavesLine(Strip(y), b);
    }
  }

  lemma TailIsRestored(y: Text, b: Byte)
    requires TailStart(y) < |y| && Clean(Strip(y))
    ensures Strip(Strip(y) + [b]) == Strip(y + [b])
  {
    var a, o := y[..TailStart(y)], y[TailStart(y)..];
    assert y == a + o;
    StripAtTail(a, o, [b]);
    CleanPrefix(Strip(a), o);
    StripOfClean(Strip(a));
    StripAtTail(Strip(a), o, [b]);
  }

  lemma OpenTailIsOneLine(o: Text, b: Byte)
    requires IsOpen(o) && IsLetter(b)
    ensures NEWLINE !in o + [b]
  {
  }

  lemma LastByteLeavesLine(t: Text, b: Byte)
    requires Clean(t) && !Clean(t + [b])
    ensures Unfinished(Strip(t + [b])) != Unfinished(t + [b])
  {
    StripLastByte(t, b);
    PushByteOnClean(t, b);
    LineAcrossTail(t, TailStart(t), b);
  }

  lemma LineAcrossTail(t: Text, q: nat, b: Byte)
    requires q < |t| && OpenAt(t, q) && IsLetter(b)
    ensures Unfinished(t + [b]) != Unfinished(t[..q])
  {
    OpenTailIsOneLine(t[q..], b);
    UnfinishedAcross(t[..q], t[q..] + [b]);
    assert t[..q] + (t[q..] + [b]) == t + [b];
  }

  lemma UnfinishedAcross(h: Text, e: Text)
    requires e != [] && NEWLINE !in e
    ensures Unfinished(h + e) != Unfinished(h)
  {
    CutAppend(h, e);
    UnfinishedIsOneLine(h);
    CutOfLine(Unfinished(h) + e);
  }

  lemma StripLastByte(t: Text, b: Byte)
    requires Clean(t)
    ensures Strip(t + [b]) == PushByte(t, b) && Clean(Strip(t + [b]))
  {
    PushByteOnClean(t, b);
    if TailStart(t) + 2 <= |t| && IsLetter(b) {
      EscapeCompletedAtTail(t, TailStart(t), b);
    } else {
      StripOfClean(t + [b]);
    }
  }

  lemma EscapeCompletedAtTail(t: Text, p: nat, b: Byte)
    requires Clean(t) && p + 2 <= |t| && OpenAt(t, p) && IsLetter(b)
    ensures Strip(t + [b]) == t[..p]
  {
    assert t == t[..p] + t[p..];
    CompletedEscape(t[..p], t[p..], b);
  }

  lemma CompletedEscape(h: Text, o: Text, b: Byte)
    requires Clean(h + o) && IsOpen(o) && |o| >= 2 && IsLetter(b)
    ensures Strip(h + o + [b]) == h
  {
    OpenThenLetter(h, o, b);
    assert h + o + [b] == h + (o + [b]);
    CleanPrefix(h, o);
    StripOfClean(h);
  }

  lemma OpenThenLetter(h: Text, o: Text, b: Byte)
    requires IsOpen(o) && |o| >= 2 && IsLetter(b)
    ensures Strip(h + (o + [b])) == Strip(h)
  {
    var e := o + [b];
    assert e[0..|e|] == e;
    assert EscapeAt(e, 0, |e|);
    StripAtEsc(h, e);
  }

  lemma CleanIsChunkSafe(s: Text, chunks: seq<Text>)
    requires Clean(Strip(s)) && Flatten(chunks) <= s
    ensures IngestAll(EMPTY, chunks) == IngestAll(EMPTY, [Flatten(chunks)])
  {
    var y := Flatten(chunks);
    assert s == y + s[|y|..];
    StripCleanPrefix(y, s[|y|..]);
    ChunkInvariance(chunks);
    IngestOne(y);
  }

  lemma UncleanCut(s: Text) returns (chunks: seq<Text>)
    requires !Clean(Strip(s))
    ensures Flatten(chunks) <= s
    ensures IngestAll(EMPTY, chunks) != IngestAll(EMPTY, [Flatten(chunks)])
  {
    var y, b := FirstUnclean(s);
    chunks := [y, [b]];
    FlattenTwo(y, [b]);
    SpoilingByte(y, b);
    IngestTwo(y, [b]);
    IngestOne(y + [b]);
  }

  lemma FlattenTwo(a: Text, b: Text)
    ensures Flatten([a, b]) == a + b
  {
    assert [a, b][..1] == [a] && [a][..0] == [];
    assert Flatten([]) == [] && [] + a == a;
    assert Flatten([a]) == a;
  }

  lemma IngestTwo(a: Text, b: Text)
    requires Clean(Strip(a))
    ensures IngestAll(EMPTY, [a, b]) == BufferOf(Strip(Strip(a) + b))
  {
    assert [a, b][..1] == [a];
    IngestOne(a);
    IngestStep(Strip(a), b);
  }

  /** The exact condition: a stream is safe to cut anywhere iff one pass strips it clean. */
  lemma ChunkSafeIff(s: Text)
    ensures ChunkSafe(s) <==> Clean(Strip(s))
  {
    if Clean(Strip(s)) {
      forall chunks: seq<Text> | Flatten(chunks) <= s
        ensures IngestAll(EMPTY, chunks) == IngestAll(EMPTY, [Flatten(chunks)])
      {
        CleanIsChunkSafe(s, chunks);
      }
    } else {
      var chunks := UncleanCut(s);
    }
  }

  const BARE: Text := [ESC, BRACKET]
  const COLOR: Text := [ESC, BRACKET, 48, 109]
  const REST: Text := [48, 109]

  lemma BareThenColor(v: Text)
    ensures Strip(BARE + COLOR + v) == BARE + Strip(v)
  {
    assert IsOpen(BARE);
    OpenIsClean(BARE);
    StripAtEsc(BARE, COLOR + v);
    assert BARE + COLOR + v == BARE + (COLOR + v);
    var s := COLOR + v;
    assert s[0..4] == COLOR;
    assert EscapeAt(s, 0, 4);
    assert s[4..] == v;
  }

  lemma ColorIsAnEscape()
    ensures Strip(COLOR) == []
  {
    BareThenColor([]);
    OpenThenLetter([], [ESC, BRACKET, 48], 109);
    assert [] + ([ESC, BRACKET, 48] + [109]) == COLOR;
  }

  lemma RestHasNoEscape()
    ensures Strip(REST) == REST && BARE + REST == COLOR
  {
    assert REST[1..] == [109];
    assert [109][1..] == [];
    assert [REST[0]] + [109] == REST;
  }

  lemma CounterexampleStrips()
    ensures Strip(BARE + COLOR) == BARE && Strip(BARE + COLOR + REST) == COLOR
  {
    BareThenColor([]);
    assert BARE + COLOR + [] == BARE + COLOR;
    assert BARE + Strip([]) == BARE;
    BareThenColor(REST);
    RestHasNoEscape();
  }

  /** Unconditional chunk invariance fails: six bytes, then two, against all eight at once. */
  lemma ChunkingCounterexample()
    ensures IngestAll(EMPTY, [BARE + COLOR, REST]) != IngestAll(EMPTY, [BARE + COLOR + REST])
  {
    var a, b := BARE + COLOR, REST;
    CounterexampleStrips();
    RestHasNoEscape();
    ColorIsAnEscape();
    assert IsOpen(BARE);
    OpenIsClean(BARE);
    IngestTwo(a, b);
    IngestOne(a + b);
    assert IngestAll(EMPTY, [a, b]) == BufferOf([]);
    CutOfLine(COLOR);
  }
}
