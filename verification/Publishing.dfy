/** From what an author writes to what the frontend shows. */
module Publishing {
  import opened Options
  import opened Strings
  import opened Fences
  import opened Exercises
  import opened Reader
  import opened Authoring
  import opened RoundTrip

  // ---- Where a written block ends ----

  /** Only the first line may start with a fence: it follows the opener's own line break. */
  predicate NoFenceLine(lines: seq<string>) {
    forall i :: 1 <= i < |lines| ==> !(TICKS <= lines[i])
  }

  /** What stands before a line's end is the line. */
  lemma TicksAtStart(line: string, rest: string)
    requires rest != "" && rest[0] == '\n'
    ensures At(line + rest, TICKS, 0) ==> TICKS <= line
  {
    var s := line + rest;
    if |line| < 3 {
      assert s[|line|] == '\n';
      AtChar(s, TICKS, 0, |line|);
    } else {
      assert s[0..3] == line[..3];
    }
  }

  lemma CloserAtBreak(first: string, rest: string)
    requires At(first + ("\n" + rest), SYNC.close, |first|)
    ensures At(rest, TICKS, 0)
  {
    var s := "\n" + rest;
    AtAfter(first, s, SYNC.close, 0);
    assert s[0..4] == SYNC.close;
    assert forall i :: 0 <= i < 3 ==> rest[i] == s[0..4][i + 1] == TICKS[i];
    assert rest[0..3] == TICKS;
  }

  /** Text of the lines from the second on, with the closer. */
  lemma StartsWithLine(lines: seq<string>) returns (rest: string)
    requires lines != []
    ensures JoinLines(lines) + SYNC.close == lines[0] + rest
    ensures rest != "" && rest[0] == '\n'
  {
    if |lines| == 1 {
      rest := SYNC.close;
    } else {
      rest := "\n" + JoinLines(lines[1..]) + SYNC.close;
      assert lines[0] + "\n" + JoinLines(lines[1..]) + SYNC.close == lines[0] + rest;
    }
  }

  lemma NotInFirst(line: string, rest: string, j: nat)
    requires IsLine(line) && j < |line|
    ensures !At(line + rest, SYNC.close, j)
  {
    assert (line + rest)[j] == line[j];
    AtChar(line + rest, SYNC.close, j, 0);
  }

  lemma NotAtBreak(first: string, lines: seq<string>)
    requires lines != [] && !(TICKS <= lines[0])
    ensures !At(first + ("\n" + (JoinLines(lines) + SYNC.close)), SYNC.close, |first|)
  {
    var rest := StartsWithLine(lines);
    if At(first + ("\n" + (lines[0] + rest)), SYNC.close, |first|) {
      CloserAtBreak(first, lines[0] + rest);
      TicksAtStart(lines[0], rest);
    }
  }

  lemma AfterBreak(first: string, rest: string, j: nat)
    requires j > |first|
    ensures At(first + ("\n" + rest), SYNC.close, j) <==> At(rest, SYNC.close, j - |first| - 1)
  {
    assert first + ("\n" + rest) == (first + "\n") + rest;
    AtAfter(first + "\n", rest, SYNC.close, j - |first| - 1);
  }

  lemma JoinAndClose(lines: seq<string>)
    requires |lines| > 1
    ensures JoinLines(lines) + SYNC.close == lines[0] + ("\n" + (JoinLines(lines[1..]) + SYNC.close))
    ensures |JoinLines(lines)| == |lines[0]| + 1 + |JoinLines(lines[1..])|
  {
    assert lines[0] + "\n" + JoinLines(lines[1..]) + SYNC.close == lines[0] + ("\n" + (JoinLines(lines[1..]) + SYNC.close));
  }

  lemma {:induction false} NoCloserInside(lines: seq<string>, j: nat)
    requires lines != [] && AllLines(lines) && NoFenceLine(lines)
    requires j < |JoinLines(lines)|
    ensures !At(JoinLines(lines) + SYNC.close, SYNC.close, j)
    decreases |lines|
  {
    if |lines| == 1 {
      NotInFirst(lines[0], SYNC.close, j);
    } else {
      var more := lines[1..];
      JoinAndClose(lines);
      if j < |lines[0]| {
        NotInFirst(lines[0], "\n" + (JoinLines(more) + SYNC.close), j);
      } else if j == |lines[0]| {
        NotAtBreak(lines[0], more);
      } else {
        NoCloserInside(more, j - |lines[0]| - 1);
        AfterBreak(lines[0], JoinLines(more) + SYNC.close, j);
      }
    }
  }

  /** A body none of whose later lines starts with a fence is found whole. */
  lemma WrittenCloses(lines: seq<string>)
    requires lines != [] && AllLines(lines) && NoFenceLine(lines)
    ensures ClosesAtEnd(SYNC, JoinLines(lines))
  {
    var body := JoinLines(lines);
    forall j | 0 <= j < |body|
      ensures !At(body + SYNC.close, SYNC.close, j)
    {
      NoCloserInside(lines, j);
    }
    Parts(body, SYNC.close, "");
    assert body + (SYNC.close + "") == body + SYNC.close;
    FirstIs(body + SYNC.close, SYNC.close, |body|);
  }

  // ---- One written block ----

  /** The template holds no line that would end the block. */
  predicate Publishable(f: Fields) {
    Writable(f) && forall i :: 0 <= i < |Lines(f.template)| ==> !(TICKS <= Lines(f.template)[i])
  }

  lemma FirstChar(line: string)
    requires line != "" && line[0] != '`'
    ensures !(TICKS <= line)
  {
    assert TICKS[0] == '`';
  }

  lemma FieldsAreNoFences(f: Fields)
    requires Writable(f)
    ensures NoFenceLine(FieldLines(f)) && !(TICKS <= TEMPLATE)
  {
    var lines := FieldLines(f);
    forall i | 1 <= i < |lines|
      ensures !(TICKS <= lines[i])
    {
      if i == 1 {
        assert lines[i] == Labelled(TYPE, f.kind) && lines[i][0] == 't';
      } else {
        assert lines[i] == Labelled(ASSET, f.asset.value) && lines[i][0] == 'a';
      }
      FirstChar(lines[i]);
    }
    assert TEMPLATE[0] == 't';
    FirstChar(TEMPLATE);
  }

  lemma NoFenceAround(before: seq<string>, after: seq<string>)
    requires NoFenceLine(before) && before != [] && !(TICKS <= TEMPLATE)
    requires forall i :: 0 <= i < |after| ==> !(TICKS <= after[i])
    ensures NoFenceLine(before + ([TEMPLATE] + after))
  {
    var lines := before + ([TEMPLATE] + after);
    forall i | 1 <= i < |lines|
      ensures !(TICKS <= lines[i])
    {
      assert lines[i] == if i < |before| then before[i] else if i == |before| then TEMPLATE else after[i - |before| - 1];
    }
  }

  lemma WrittenIsFound(f: Fields)
    requires Publishable(f)
    ensures ClosesAtEnd(SYNC, Written(f))
  {
    FieldsAreLines(f);
    LinesAreLines(f.template);
    JoinOfLines(f.template);
    AroundTemplate(FieldLines(f), Lines(f.template));
    FieldsAreNoFences(f);
    NoFenceAround(FieldLines(f), Lines(f.template));
    WrittenCloses(WrittenLines(f));
  }

  /** A text that is one written block. */
  function BlockText(f: Fields): string {
    Assemble(SYNC, Doc([Piece("", Written(f))], ""))
  }

  lemma NothingInEmpty(f: Fence)
    requires f.Valid()
    ensures !Contains("", f.open) && Split(f, "") == Doc([], "")
  {
  }

  lemma BlockIsFound(f: Fields)
    requires Publishable(f)
    ensures Split(SYNC, BlockText(f)) == Doc([Piece("", Written(f))], "")
  {
    FenceIsValid();
    NothingInEmpty(SYNC);
    WrittenIsFound(f);
    SplitOfDoc(Doc([Piece("", Written(f))], ""));
  }

  lemma OnePiece(parse: Parser, task: nat, p: Piece, f: Fields)
    requires parse(p.body) == Ok(f)
    ensures ExtractPieces(parse, task, [p]) == Ok([Exercise(ExerciseId(task, 1), f)])
  {
    assert [p][..0] == [] && [p][0] == p;
    assert [] + [Exercise(ExerciseId(task, 1), f)] == [Exercise(ExerciseId(task, 1), f)];
  }

  lemma BlockIsExtracted(task: nat, f: Fields)
    requires Publishable(f)
    ensures ExtractTask(ParseBody, task, BlockText(f)) == Ok([Exercise(ExerciseId(task, 1), f)])
  {
    BlockIsFound(f);
    ParseWritten(f);
    OnePiece(ParseBody, task, Piece("", Written(f)), f);
  }

  lemma OnePair(e: Exercise)
    ensures Pairs([e]) == [Shown(e.id, e.fields.description)]
    ensures NoTicks([e]) <==> !Contains(e.fields.description, TICKS)
  {
    assert [e][0] == e;
  }

  lemma NothingToRead()
    ensures ReadBlocks("") == []
  {
    FenceIsValid();
    NothingInEmpty(READER);
  }

  /** The block an author writes is extracted with its fields, and its published form shows the
      reader its id and description, if and only if the description holds no fence. */
  lemma PublishedIff(task: nat, f: Fields)
    requires Publishable(f)
    ensures ExtractTask(ParseBody, task, BlockText(f)) == Ok([Exercise(ExerciseId(task, 1), f)])
    ensures ReadBlocks(Rewritten(ParseBody, task, BlockText(f))) == [Shown(ExerciseId(task, 1), f.description)]
            <==> !Contains(f.description, TICKS)
  {
    BlockIsExtracted(task, f);
    BlockIsFound(f);
    NothingToRead();
    RoundTripIff(task, BlockText(f));
    OnePair(Exercise(ExerciseId(task, 1), f));
    var pairs := [Shown(ExerciseId(task, 1), f.description)];
    assert pairs + [] == pairs;
  }

  const FENCED := Fields(TICKS, "shell", None, "")

  /** Such a description can be written: the frontend then shows something else. */
  lemma FencedDescriptionIsLost(task: nat)
    ensures ExtractTask(ParseBody, task, BlockText(FENCED)) == Ok([Exercise(ExerciseId(task, 1), FENCED)])
    ensures ReadBlocks(Rewritten(ParseBody, task, BlockText(FENCED))) != [Shown(ExerciseId(task, 1), TICKS)]
  {
    assert TICKS[0] == TICKS[1] == TICKS[2] == '`';
    assert IsLine("shell") && IsTrimmed("shell");
    assert Publishable(FENCED);
    assert At(TICKS, TICKS, 0);
    FirstIs(TICKS, TICKS, 0);
    PublishedIff(task, FENCED);
  }
}
