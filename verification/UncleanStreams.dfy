/** Why refinement needs clean streams: an unclean one that loses a pass when it is cut. */
module UncleanStreams {
  import opened Ansi
  import opened LineBuffer
  import opened LineByLine
  import opened Grading
  import opened Hiding

  const FIRST := BARE + COLOR
  const SECOND := REST + [NEWLINE]

  lemma Joined()
    ensures FIRST + REST + [NEWLINE] == FIRST + SECOND && BARE + SECOND == COLOR + [NEWLINE]
  {
  }

  /** A line is stripped without its break. */
  lemma StripThenBreak(u: Text, t: Text)
    requires Strip(u) == t
    ensures Strip(u + [NEWLINE]) == t + [NEWLINE]
  {
    StripLine([], u);
  }

  /** In one piece the inner sequence goes and leaves another; in two that one goes as well. */
  lemma StripsApart()
    ensures Strip(FIRST) == BARE
    ensures Strip(FIRST + SECOND) == COLOR + [NEWLINE]
    ensures Strip(BARE + SECOND) == [NEWLINE]
  {
    CounterexampleStrips();
    ColorIsAnEscape();
    Joined();
    StripThenBreak(FIRST + REST, COLOR);
    StripThenBreak(COLOR, []);
    assert [] + [NEWLINE] == [NEWLINE];
  }

  lemma Ingested(b: Buffer, chunk: Text, t: Text, c: Cut)
    requires Strip(b.partial + chunk) == t && CutOf(t) == c && |b.lines + c.done| <= RING_CAPACITY
    ensures IngestSpec(b, chunk) == Buffer(c.last, b.lines + c.done)
    ensures CompletesLine(b, chunk) <==> c.done != []
  {
  }

  lemma OneLine(l: Text)
    requires NEWLINE !in l
    ensures CutOf(l) == Cut([], l) && CutOf(l + [NEWLINE]) == Cut([l], [])
  {
    CutOfLine(l);
    FeedSnoc(l, NEWLINE);
  }

  lemma NoBreaks()
    ensures NEWLINE !in COLOR && NEWLINE !in BARE
  {
  }

  lemma BufferTogether()
    ensures IngestSpec(EMPTY, FIRST + SECOND) == Buffer([], [COLOR]) && CompletesLine(EMPTY, FIRST + SECOND)
  {
    StripsApart();
    NoBreaks();
    OneLine(COLOR);
    assert [] + (FIRST + SECOND) == FIRST + SECOND;
    Ingested(EMPTY, FIRST + SECOND, COLOR + [NEWLINE], Cut([COLOR], []));
    assert [] + [COLOR] == [COLOR];
  }

  lemma BufferEarly()
    ensures IngestSpec(EMPTY, FIRST) == Buffer(BARE, []) && !CompletesLine(EMPTY, FIRST)
  {
    StripsApart();
    NoBreaks();
    OneLine(BARE);
    assert [] + FIRST == FIRST;
    Ingested(EMPTY, FIRST, BARE, Cut([], BARE));
  }

  lemma BufferLater()
    ensures IngestSpec(Buffer(BARE, []), SECOND) == Buffer([], [[]])
  {
    StripsApart();
    OneLine([]);
    assert [] + [NEWLINE] == [NEWLINE];
    Ingested(Buffer(BARE, []), SECOND, [NEWLINE], Cut([[]], []));
    var line: seq<Text> := [[]];
    assert [] + line == line;
  }

  const TOGETHER := Event("asset", FIRST + SECOND)
  const EARLY := Event("asset", FIRST)
  const LATER := Event("asset", SECOND)

  lemma TogetherPasses()
    ensures PassesOn(Watching(COLOR), 0, START, TOGETHER)
  {
    BufferTogether();
    var assets := Step(Watching(COLOR), START, TOGETHER).assets;
    assert Window(assets, "asset") == COLOR;
  }

  lemma EarlyLeaves(c: Config)
    ensures Step(c, START, EARLY) == State(map["asset" := Buffer(BARE, [])], {})
  {
    BufferEarly();
  }

  lemma LaterMisses(s: State)
    requires s == State(map["asset" := Buffer(BARE, [])], {})
    ensures !PassesOn(Watching(COLOR), 0, s, LATER)
  {
    BufferLater();
    var assets := Step(Watching(COLOR), s, LATER).assets;
    assert assets == map["asset" := Buffer([], [[]])];
    assert Window(assets, "asset") == [];
  }

  const CUT := [Delivery("asset", [FIRST, SECOND])]

  lemma CutEvents()
    ensures Fine(CUT) == [EARLY, LATER] && Coarse(CUT) == [TOGETHER]
  {
    var chunks := [FIRST, SECOND];
    assert chunks[..1] == [FIRST] && [FIRST][..0] == [] && CUT[..0] == [];
    assert Pieces("asset", chunks) == Pieces("asset", chunks[..1]) + [LATER];
    assert Pieces("asset", [FIRST]) == Pieces("asset", []) + [EARLY];
    FlattenTwo(FIRST, SECOND);
  }

  /** The hypothesis of `RefiningKeepsPasses` is needed: a stream that one pass does not strip clean
      passes a task as one event and fails it as two. */
  lemma CuttingLoses()
    ensures "task" in Run(Watching(COLOR), Coarse(CUT)).passed
    ensures "task" !in Run(Watching(COLOR), Fine(CUT)).passed
  {
    var c := Watching(COLOR);
    CutEvents();
    TogetherPasses();
    StepPassesOwn(c, 0, START, TOGETHER);
    RunSnoc(c, [], TOGETHER);
    assert [] + [TOGETHER] == [TOGETHER];
    EarlyLeaves(c);
    RunSnoc(c, [], EARLY);
    assert [] + [EARLY] == [EARLY];
    LaterMisses(Run(c, [EARLY]));
    StepPassesOwn(c, 0, Run(c, [EARLY]), LATER);
    RunSnoc(c, [EARLY], LATER);
    assert [EARLY] + [LATER] == [EARLY, LATER];
  }
}
