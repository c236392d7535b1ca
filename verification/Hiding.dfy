/** Why chunks matter to grading: a chunk of more than ten lines hides its early ones. */
module Hiding {
  import opened Ansi
  import opened LineBuffer
  import opened Grading
  import opened Options

  function Breaks(n: nat): (r: Text)
    ensures |r| == n && forall i :: 0 <= i < n ==> r[i] == NEWLINE
  {
    if n == 0 then [] else Breaks(n - 1) + [NEWLINE]
  }

  const TEN_BREAKS := Breaks(RING_CAPACITY)

  function Blanks(n: nat): (r: seq<Text>)
    ensures |r| == n && forall i :: 0 <= i < n ==> r[i] == []
  {
    if n == 0 then [] else Blanks(n - 1) + [[]]
  }

  lemma {:induction false} LinesOfBreaks(n: nat)
    ensures CutOf(Breaks(n)) == Cut(Blanks(n), [])
  {
    if n > 0 {
      LinesOfBreaks(n - 1);
      assert Breaks(n)[..n - 1] == Breaks(n - 1);
    }
  }

  lemma {:induction false} JoinOfBlanks(n: nat)
    ensures forall i :: 0 <= i < |Join(Blanks(n))| ==> Join(Blanks(n))[i] == NEWLINE
  {
    if n > 1 {
      JoinOfBlanks(n - 1);
      assert Blanks(n)[..n - 1] == Blanks(n - 1);
    }
  }

  lemma PlainStrips(s: Text)
    requires forall i :: 0 <= i < |s| ==> s[i] != ESC
    ensures Clean(s) && Strip(s) == s
  {
    forall i: nat, k: nat | i <= k <= |s|
      ensures !EscapeAt(s, i, k)
    {
      if i < k {
        assert s[i..k][0] == s[i];
      }
    }
    StripOfClean(s);
  }

  /** A line and its break. */
  function Line(l: Text): Text {
    l + [NEWLINE]
  }

  predicate Plain(l: Text) {
    l != [] && forall i :: 0 <= i < |l| ==> l[i] != ESC && l[i] != NEWLINE
  }

  lemma LineAlone(l: Text)
    requires Plain(l)
    ensures CutOf(Line(l)) == Cut([l], [])
  {
    CutOfLine(l);
    FeedSnoc(l, NEWLINE);
  }

  lemma LineThenBreaks(l: Text, n: nat)
    requires Plain(l)
    ensures CutOf(Line(l)) == Cut([l], [])
    ensures CutOf(Line(l) + Breaks(n)) == Cut([l] + Blanks(n), [])
  {
    LineAlone(l);
    var breaks := Breaks(n);
    CutAppend(Line(l), breaks);
    assert [] + breaks == breaks;
    LinesOfBreaks(n);
  }

  lemma PlainIngest(s: Text)
    requires forall i :: 0 <= i < |s| ==> s[i] != ESC
    ensures IngestSpec(EMPTY, s) == BufferOf(s)
    ensures CompletesLine(EMPTY, s) <==> Complete(s) != []
  {
    PlainStrips(s);
    assert [] + s == s && [] + Complete(s) == Complete(s);
  }

  lemma LastTenAfter(l: Text, blanks: seq<Text>)
    requires |blanks| == RING_CAPACITY
    ensures LastTen([l] + blanks) == blanks
  {
  }

  /** What the window holds: the line alone, or, after ten more lines in the same chunk, only
      those. */
  lemma WindowAfter(l: Text)
    requires Plain(l)
    ensures IngestSpec(EMPTY, Line(l)) == Buffer([], [l]) && CompletesLine(EMPTY, Line(l))
    ensures IngestSpec(EMPTY, Line(l) + TEN_BREAKS) == Buffer([], Blanks(RING_CAPACITY))
    ensures CompletesLine(EMPTY, Line(l) + TEN_BREAKS)
  {
    LineThenBreaks(l, RING_CAPACITY);
    PlainIngest(Line(l));
    PlainIngest(Line(l) + TEN_BREAKS);
    LastTenAfter(l, Blanks(RING_CAPACITY));
  }

  /** One lab-wide task, matching windows that start with `l`. */
  function Watching(l: Text): Config {
    Config([Task("task", "", "")], template => Some(w => l <= w))
  }

  lemma PassesAlone(l: Text)
    requires Plain(l)
    ensures PassesOn(Watching(l), 0, START, Event("asset", Line(l)))
  {
    WindowAfter(l);
    var assets := Step(Watching(l), START, Event("asset", Line(l))).assets;
    assert assets["asset"].lines == [l];
    assert Window(assets, "asset") == l;
  }

  lemma SameHead(l: Text, w: Text)
    requires l != []
    ensures l <= w ==> w != [] && w[0] == l[0]
  {
  }

  lemma HiddenTogether(l: Text)
    requires Plain(l)
    ensures !PassesOn(Watching(l), 0, START, Event("asset", Line(l) + TEN_BREAKS))
  {
    WindowAfter(l);
    var assets := Step(Watching(l), START, Event("asset", Line(l) + TEN_BREAKS)).assets;
    assert assets["asset"].lines == Blanks(RING_CAPACITY);
    JoinOfBlanks(RING_CAPACITY);
    SameHead(l, Window(assets, "asset"));
  }

  function Both(l: Text): seq<Delivery> {
    [Delivery("asset", [Line(l), TEN_BREAKS])]
  }

  lemma Events(l: Text)
    ensures Fine(Both(l)) == [Event("asset", Line(l)), Event("asset", TEN_BREAKS)]
    ensures Coarse(Both(l)) == [Event("asset", Line(l) + TEN_BREAKS)]
  {
    var chunks := [Line(l), TEN_BREAKS];
    assert chunks[..1] == [Line(l)] && [Line(l)][..0] == [];
    assert Pieces("asset", chunks) == Pieces("asset", chunks[..1]) + [Event("asset", TEN_BREAKS)];
    assert Pieces("asset", [Line(l)]) == Pieces("asset", []) + [Event("asset", Line(l))];
    assert Both(l)[..0] == [];
    FlattenTwo(Line(l), TEN_BREAKS);
  }

  /** The same output graded differently: as one chunk it fails, cut after the first line it
      passes. So cutting can gain a pass, though by `RefiningKeepsPasses` it never loses one. */
  lemma CuttingGains(l: Text)
    requires Plain(l)
    ensures "task" in Run(Watching(l), Fine(Both(l))).passed
    ensures "task" !in Run(Watching(l), Coarse(Both(l))).passed
  {
    var c := Watching(l);
    Events(l);
    PassesAlone(l);
    HiddenTogether(l);
    StepPassesOwn(c, 0, START, Event("asset", Line(l)));
    StepPassesOwn(c, 0, START, Event("asset", Line(l) + TEN_BREAKS));
    RunSnoc(c, [], Event("asset", Line(l)));
    RunSnoc(c, [], Event("asset", Line(l) + TEN_BREAKS));
    assert Fine(Both(l))[..1] == [] + [Event("asset", Line(l))];
    PassedGrow(c, Fine(Both(l)), 1);
  }
}
