/** Blocks between an opener and a closer, found leftmost first as both languages' regular
    expressions find them, and the same structure put back together. */
module Fences {
  import opened Options
  import opened Strings

  /** The opener and the closer of a fence pattern. */
  datatype Fence = Fence(open: string, close: string) {
    /** The last character of the opener occurs nowhere else in it, so two openers cannot overlap. */
    predicate Valid() {
      && close != []
      && open != []
      && open[|open| - 1] !in open[..|open| - 1]
    }
  }

  /** Text before a block and the block's body. */
  datatype Piece = Piece(pre: string, body: string)

  datatype Doc = Doc(pieces: seq<Piece>, tail: string)

  function Print(f: Fence, p: Piece, rest: string): string {
    p.pre + (f.open + (p.body + (f.close + rest)))
  }

  datatype Match = NoMatch | Block(piece: Piece, rest: string)

  /** After an opener: the body ends at the closer found at `at`. */
  function CloseAt(f: Fence, pre: string, inner: string, at: Option<nat>): Match
    requires at.Some? ==> at.value + |f.close| <= |inner|
  {
    if at.None? then NoMatch
    else Block(Piece(pre, inner[..at.value]), inner[at.value + |f.close|..])
  }

  /** After an opener: the body ends at the first closer. */
  function CloseBlock(f: Fence, pre: string, inner: string): Match {
    CloseAt(f, pre, inner, Find(inner, f.close))
  }

  /** The block that starts with the opener found at `at`. */
  function OpenAt(f: Fence, s: string, at: Option<nat>): Match
    requires at.Some? ==> at.value + |f.open| <= |s|
  {
    if at.None? then NoMatch
    else CloseBlock(f, s[..at.value], s[at.value + |f.open|..])
  }

  /** The leftmost block, its body ending at the first closer after the opener, and what follows.
      If the first opener has no closer after it, no later one has. */
  function FirstBlock(f: Fence, s: string): Match {
    OpenAt(f, s, Find(s, f.open))
  }

  lemma FirstBlockShorter(f: Fence, s: string)
    ensures FirstBlock(f, s).Block? ==> |FirstBlock(f, s).rest| + |f.close| <= |s|
  {
  }

  lemma CloseBlockParts(f: Fence, pre: string, inner: string)
    ensures var m := CloseBlock(f, pre, inner);
            m.Block? ==>
              && m.piece.pre == pre
              && inner == m.piece.body + (f.close + m.rest)
              && Find(inner, f.close) == Some(|m.piece.body|)
  {
    if Find(inner, f.close).Some? {
      CutAt(inner, f.close, Find(inner, f.close).value);
    }
  }

  lemma OpensAt(f: Fence, s: string, i: nat, pre: string, inner: string)
    requires i + |f.open| <= |s|
    requires s[..i] == pre && s[i + |f.open|..] == inner
    ensures OpenAt(f, s, Some(i)) == CloseBlock(f, pre, inner)
  {
  }

  lemma OpensFirst(f: Fence, s: string, at: Option<nat>)
    requires Find(s, f.open) == at
    ensures FirstBlock(f, s) == OpenAt(f, s, at)
  {
  }

  /** The text before and after the first opener. */
  lemma OpenerParts(f: Fence, s: string) returns (pre: string, inner: string)
    requires Find(s, f.open).Some?
    ensures s == pre + (f.open + inner) && Find(s, f.open) == Some(|pre|)
    ensures FirstBlock(f, s) == CloseBlock(f, pre, inner)
  {
    var i := Find(s, f.open).value;
    pre, inner := s[..i], s[i + |f.open|..];
    CutAt(s, f.open, i);
    OpensAt(f, s, i, pre, inner);
    OpensFirst(f, s, Some(i));
  }

  lemma FirstBlockPrints(f: Fence, s: string)
    requires FirstBlock(f, s).Block?
    ensures s == Print(f, FirstBlock(f, s).piece, FirstBlock(f, s).rest)
  {
    var pre, inner := OpenerParts(f, s);
    CloseBlockParts(f, pre, inner);
  }

  /** All blocks of `s`, left to right, and the text after the last one. */
  function Split(f: Fence, s: string): Doc
    requires f.close != []
    decreases |s|
  {
    FirstBlockShorter(f, s);
    match FirstBlock(f, s)
    case NoMatch => Doc([], s)
    case Block(p, rest) =>
      var d := Split(f, rest);
      Doc([p] + d.pieces, d.tail)
  }

  function Assemble(f: Fence, d: Doc): string
    decreases |d.pieces|
  {
    if d.pieces == [] then d.tail
    else Print(f, d.pieces[0], Assemble(f, Doc(d.pieces[1..], d.tail)))
  }

  lemma {:induction false} AssembleSplit(f: Fence, s: string)
    requires f.Valid()
    ensures Assemble(f, Split(f, s)) == s
    decreases |s|
  {
    match FirstBlock(f, s)
    case NoMatch =>
    case Block(p, rest) =>
      FirstBlockShorter(f, s);
      AssembleSplit(f, rest);
      FirstBlockPrints(f, s);
      AssembleOne(f, p, Split(f, rest));
  }

  lemma AssembleOne(f: Fence, p: Piece, d: Doc)
    ensures Assemble(f, Doc([p] + d.pieces, d.tail)) == Print(f, p, Assemble(f, d))
  {
    assert ([p] + d.pieces)[1..] == d.pieces;
  }

  /** The closer first occurs in `body + close` at its end. */
  ghost predicate ClosesAtEnd(f: Fence, body: string) {
    Find(body + f.close, f.close) == Some(|body|)
  }

  ghost predicate WellFormed(f: Fence, p: Piece) {
    !Contains(p.pre, f.open) && ClosesAtEnd(f, p.body)
  }

  lemma NoOverlap(f: Fence, pre: string, rest: string, j: nat)
    requires f.Valid() && j < |pre| < j + |f.open|
    ensures !At(pre + (f.open + rest), f.open, j)
  {
    var s, n := pre + (f.open + rest), |f.open| - 1;
    var k := j + n - |pre|;
    assert f.open[k] in f.open[..n] by {
      assert f.open[..n][k] == f.open[k];
    }
    assert s[j + n] == f.open[k] != f.open[n];
    AtChar(s, f.open, j, n);
  }

  /** No opener starts in text that contains none, even if one follows directly. */
  lemma NoEarlyOpener(f: Fence, pre: string, rest: string)
    requires f.Valid() && !Contains(pre, f.open)
    ensures Find(pre + (f.open + rest), f.open) == Some(|pre|)
  {
    var s := pre + (f.open + rest);
    forall j | 0 <= j < |pre|
      ensures !At(s, f.open, j)
    {
      if j + |f.open| <= |pre| {
        AtBefore(pre, f.open + rest, f.open, j);
      } else {
        NoOverlap(f, pre, rest, j);
      }
    }
    Parts(pre, f.open, rest);
    FirstIs(s, f.open, |pre|);
  }

  lemma CloseBlockOf(f: Fence, p: Piece, rest: string)
    requires ClosesAtEnd(f, p.body)
    ensures CloseBlock(f, p.pre, p.body + (f.close + rest)) == Block(p, rest)
  {
    assert p.body + f.close + rest == p.body + (f.close + rest);
    FindInLonger(p.body + f.close, rest, f.close);
    Parts(p.body, f.close, rest);
  }

  lemma FirstBlockOf(f: Fence, p: Piece, rest: string)
    requires f.Valid() && WellFormed(f, p)
    ensures FirstBlock(f, Print(f, p, rest)) == Block(p, rest)
  {
    var inner := p.body + (f.close + rest);
    NoEarlyOpener(f, p.pre, inner);
    Parts(p.pre, f.open, inner);
    CloseBlockOf(f, p, rest);
    OpensAt(f, Print(f, p, rest), |p.pre|, p.pre, inner);
    OpensFirst(f, Print(f, p, rest), Some(|p.pre|));
  }

  lemma SplitPrint(f: Fence, p: Piece, rest: string)
    requires f.Valid() && WellFormed(f, p)
    ensures Split(f, Print(f, p, rest)) == Doc([p] + Split(f, rest).pieces, Split(f, rest).tail)
  {
    FirstBlockOf(f, p, rest);
  }

  /** Splitting assembled text gives the pieces back, and whatever the tail itself splits into. */
  lemma {:induction false} SplitAssemble(f: Fence, d: Doc)
    requires f.Valid() && forall p :: p in d.pieces ==> WellFormed(f, p)
    ensures var t := Split(f, d.tail);
            Split(f, Assemble(f, d)) == Doc(d.pieces + t.pieces, t.tail)
    decreases |d.pieces|
  {
    var t := Split(f, d.tail);
    if d.pieces == [] {
      assert d.pieces + t.pieces == t.pieces;
    } else {
      var p, more := d.pieces[0], Doc(d.pieces[1..], d.tail);
      SplitAssemble(f, more);
      SplitPrint(f, p, Assemble(f, more));
      SnocPieces(d.pieces, t.pieces);
    }
  }

  lemma SnocPieces(a: seq<Piece>, b: seq<Piece>)
    requires a != []
    ensures [a[0]] + (a[1..] + b) == a + b
  {
  }

  /** What splitting finds is well formed, and its tail holds no further block. */
  lemma {:induction false} SplitIsWellFormed(f: Fence, s: string)
    requires f.Valid()
    ensures forall p :: p in Split(f, s).pieces ==> WellFormed(f, p)
    ensures Split(f, Split(f, s).tail) == Doc([], Split(f, s).tail)
    decreases |s|
  {
    match FirstBlock(f, s)
    case NoMatch =>
    case Block(p, rest) =>
      FirstBlockShorter(f, s);
      SplitIsWellFormed(f, rest);
      FoundIsWellFormed(f, s);
  }

  lemma CloseBlockCloses(f: Fence, pre: string, inner: string)
    requires CloseBlock(f, pre, inner).Block?
    ensures ClosesAtEnd(f, CloseBlock(f, pre, inner).piece.body)
  {
    CloseBlockParts(f, pre, inner);
    var m := CloseBlock(f, pre, inner);
    assert inner == (m.piece.body + f.close) + m.rest;
    FindInShorter(m.piece.body + f.close, m.rest, f.close);
  }

  lemma FoundIsWellFormed(f: Fence, s: string)
    requires f.Valid() && FirstBlock(f, s).Block?
    ensures WellFormed(f, FirstBlock(f, s).piece)
  {
    var pre, inner := OpenerParts(f, s);
    NotInShorter(pre, f.open + inner, f.open);
    CloseBlockParts(f, pre, inner);
    CloseBlockCloses(f, pre, inner);
  }
}
