/** What the synchroniser writes, the frontend reads. */
module RoundTrip {
  import opened Options
  import opened Strings
  import opened Fences
  import opened Exercises
  import opened Reader

  // ---- What parsing guarantees ----

  predicate GoodDescription(d: string) {
    d != "" && IsTrimmed(d) && IsLine(d)
  }

  ghost predicate GoodParser(parse: Parser) {
    forall body :: parse(body).Ok? ==> GoodDescription(parse(body).value.description)
  }

  lemma FieldIsLine(line: string, n: nat)
    requires IsLine(line) && n <= |line|
    ensures IsTrimmed(Trim(line[n..])) && IsLine(Trim(line[n..]))
  {
    TrimIsTrimmed(line[n..]);
    assert forall c :: c in line[n..] ==> c in line;
  }

  lemma {:induction false} LastFieldIsLine(lines: seq<string>, tag: string)
    requires forall i :: 0 <= i < |lines| ==> IsLine(lines[i])
    ensures var v := OrEmpty(LastField(lines, tag));
            IsTrimmed(v) && IsLine(v)
  {
    if lines != [] {
      var last := lines[|lines| - 1];
      if tag <= last {
        FieldIsLine(last, |tag|);
      } else {
        LastFieldIsLine(lines[..|lines| - 1], tag);
      }
    }
  }

  lemma ParseBodyIsGood()
    ensures GoodParser(ParseBody)
  {
    forall body | ParseBody(body).Ok?
      ensures GoodDescription(ParseBody(body).value.description)
    {
      var lines := Lines(body);
      LastFieldIsLine(lines[..TemplateLine(lines)], DESCRIPTION);
    }
  }

  lemma IdIsGood(task: nat, exercise: nat)
    ensures GoodId(ExerciseId(task, exercise))
  {
    var id := ExerciseId(task, exercise);
    assert forall i :: 0 <= i < |id| ==> '0' <= id[i] <= '9' || id[i] == '.';
  }

  // ---- Where a placeholder's body ends ----

  /** The placeholder's body up to its description. */
  function Lead(id: string): string {
    PlaceholderBody(id, "")
  }

  lemma LeadThen(id: string, x: string)
    ensures PlaceholderBody(id, x) == Lead(id) + x
  {
  }

  lemma LeadHasNoTick(id: string)
    requires GoodId(id)
    ensures '`' !in Lead(id)
  {
    assert '`' !in "id: " && '`' !in "\ndescription: ";
  }

  lemma FindPastLead(h: string, x: string)
    requires '`' !in h
    ensures Find(h + x, TICKS) ==
            match Find(x, TICKS) case None => None case Some(i) => Some(|h| + i)
  {
    var s := h + x;
    forall j | 0 <= j < |h|
      ensures !At(s, TICKS, j)
    {
      AtChar(s, TICKS, j, 0);
    }
    forall j: nat | j >= |h|
      ensures At(s, TICKS, j) <==> At(x, TICKS, j - |h|)
    {
      AtAfter(h, x, TICKS, j - |h|);
    }
    if Find(x, TICKS).Some? {
      FirstIs(s, TICKS, |h| + Find(x, TICKS).value);
    }
  }

  lemma NoTicksAround(d: string, j: nat)
    requires IsLine(d) && !Contains(d, TICKS) && j <= |d|
    ensures !At(d + ("\n" + TICKS), TICKS, j)
  {
    if j + |TICKS| <= |d| {
      AtBefore(d, "\n" + TICKS, TICKS, j);
    } else {
      AtChar(d + ("\n" + TICKS), TICKS, j, |d| - j);
    }
  }

  lemma TicksAfterLine(d: string)
    requires IsLine(d) && !Contains(d, TICKS)
    ensures Find(d + ("\n" + TICKS), TICKS) == Some(|d| + 1)
  {
    var s := d + ("\n" + TICKS);
    forall j | 0 <= j < |d| + 1
      ensures !At(s, TICKS, j)
    {
      NoTicksAround(d, j);
    }
    Parts(d + "\n", TICKS, "");
    assert d + "\n" + (TICKS + "") == s;
    FirstIs(s, TICKS, |d| + 1);
  }

  /** For the reader, the body ends where it should if the description holds no fence. */
  lemma ReaderCloses(id: string, d: string)
    requires GoodId(id) && IsLine(d) && !Contains(d, TICKS)
    ensures ClosesAtEnd(READER, PlaceholderBody(id, d) + "\n")
  {
    LeadHasNoTick(id);
    TicksAfterLine(d);
    FindPastLead(Lead(id), d + ("\n" + TICKS));
    LeadThen(id, d);
    Regroup(Lead(id), d, "\n", TICKS);
  }

  lemma Regroup(a: string, b: string, c: string, d: string)
    ensures a + b + c + d == a + (b + (c + d))
  {
  }

  /** Otherwise it ends inside the description. */
  lemma ReaderCuts(id: string, d: string, pre: string, rest: string)
    requires GoodId(id) && Contains(d, TICKS)
    ensures var x := d[..Find(d, TICKS).value];
            var m := CloseBlock(READER, pre, PlaceholderBody(id, d) + rest);
            m.Block? && m.piece == Piece(pre, PlaceholderBody(id, x))
  {
    var q := Find(d, TICKS).value;
    var inner := PlaceholderBody(id, d) + rest;
    LeadThen(id, d);
    LeadThen(id, d[..q]);
    LeadHasNoTick(id);
    assert inner == Lead(id) + (d + rest);
    FindInLonger(d, rest, TICKS);
    FindPastLead(Lead(id), d + rest);
    assert inner[..|Lead(id)| + q] == Lead(id) + d[..q];
  }

  /** For the synchroniser's own pattern a placeholder always ends where it should. */
  lemma SyncCloses(id: string, d: string)
    requires GoodId(id) && IsLine(d)
    ensures ClosesAtEnd(SYNC, PlaceholderBody(id, d))
  {
    var first := "id: " + id;
    var body := PlaceholderBody(id, d);
    var s := body + SYNC.close;
    assert body == first + ("\ndescription: " + d);
    assert forall j :: 0 <= j < |first| ==> s[j] == first[j] != '\n';
    assert s[|first| + 1] == 'd';
    forall j | 0 <= j < |body|
      ensures !At(s, SYNC.close, j)
    {
      AtChar(s, SYNC.close, j, 0);
      AtChar(s, SYNC.close, j, 1);
    }
    assert s[|body|..|body| + |SYNC.close|] == SYNC.close;
    FirstIs(s, SYNC.close, |body|);
  }

  // ---- One rewritten task, seen by the reader ----

  /** The same block for the reader: its body keeps the break before the fence. */
  function AsRead(p: Piece): Piece {
    Piece(p.pre, p.body + "\n")
  }

  function AllAsRead(ps: seq<Piece>): (r: seq<Piece>)
    ensures |r| == |ps| && forall i :: 0 <= i < |ps| ==> r[i] == AsRead(ps[i])
  {
    seq(|ps|, i requires 0 <= i < |ps| => AsRead(ps[i]))
  }

  lemma PrintAsRead(p: Piece, rest: string)
    ensures Print(SYNC, p, rest) == Print(READER, AsRead(p), rest)
  {
    assert p.body + (SYNC.close + rest) == p.body + "\n" + (READER.close + rest);
  }

  /** The text read from its first blocks on, `qs` and the tail being left as they are. */
  lemma {:induction false} AssembleAsRead(ps: seq<Piece>, qs: seq<Piece>, tail: string)
    ensures Assemble(SYNC, Doc(ps + qs, tail)) ==
            Assemble(READER, Doc(AllAsRead(ps), Assemble(SYNC, Doc(qs, tail))))
    decreases |ps|
  {
    if ps == [] {
      assert ps + qs == qs;
    } else {
      var p, more := ps[0], ps[1..];
      assert ps + qs == [p] + (more + qs);
      assert AllAsRead(ps) == [AsRead(p)] + AllAsRead(more);
      AssembleAsRead(more, qs, tail);
      AssembleOne(SYNC, p, Doc(more + qs, tail));
      AssembleOne(READER, AsRead(p), Doc(AllAsRead(more), Assemble(SYNC, Doc(qs, tail))));
      PrintAsRead(p, Assemble(SYNC, Doc(more + qs, tail)));
    }
  }

  /** The blocks of a task with their exercises, as extraction leaves them. */
  ghost predicate Extracted(ps: seq<Piece>, es: seq<Exercise>) {
    && |ps| == |es|
    && (forall i :: 0 <= i < |ps| ==> !Contains(ps[i].pre, OPENER))
    && (forall i :: 0 <= i < |es| ==> GoodId(es[i].id) && GoodDescription(es[i].fields.description))
  }

  predicate NoTicks(es: seq<Exercise>) {
    forall i :: 0 <= i < |es| ==> !Contains(es[i].fields.description, TICKS)
  }

  function Pairs(es: seq<Exercise>): seq<Shown> {
    seq(|es|, i requires 0 <= i < |es| => Shown(es[i].id, es[i].fields.description))
  }

  /** How the reader treats placeholders, whole or cut off inside the description. */
  ghost predicate ReadsPlaceholders(read: string -> Option<Shown>) {
    && (forall id, d :: GoodId(id) && GoodDescription(d) ==> read(PlaceholderBody(id, d) + "\n") == Some(Shown(id, d)))
    && (forall id, d, x :: GoodId(id) && GoodDescription(d) && x <= d && x != d ==>
          read(PlaceholderBody(id, x)).Some? && read(PlaceholderBody(id, x)).value.description != d)
  }

  lemma ReadBlockReads()
    ensures ReadsPlaceholders(ReadBlock)
  {
    forall id, d | GoodId(id) && GoodDescription(d)
      ensures ReadBlock(PlaceholderBody(id, d) + "\n") == Some(Shown(id, d))
    {
      ReadsPlaceholder(id, d);
    }
    forall id, d, x | GoodId(id) && GoodDescription(d) && x <= d && x != d
      ensures ReadBlock(PlaceholderBody(id, x)).Some? && ReadBlock(PlaceholderBody(id, x)).value.description != d
    {
      ReadsCutPlaceholder(id, x, d);
    }
  }

  lemma {:induction false} ReadPiecesAppend(read: string -> Option<Shown>, a: seq<Piece>, b: seq<Piece>)
    ensures ReadPieces(read, a + b) == ReadPieces(read, a) + ReadPieces(read, b)
  {
    if a == [] {
      assert a + b == b;
    } else {
      assert a + b == [a[0]] + (a[1..] + b);
      ReadPiecesCons(read, a[0], a[1..] + b);
      ReadPiecesAppend(read, a[1..], b);
    }
  }

  lemma {:induction false} ReadsPairs(read: string -> Option<Shown>, ps: seq<Piece>, es: seq<Exercise>)
    requires |ps| == |es|
    requires forall i :: 0 <= i < |ps| ==> read(ps[i].body) == Some(Shown(es[i].id, es[i].fields.description))
    ensures ReadPieces(read, ps) == Pairs(es)
  {
    if ps != [] {
      ReadsPairs(read, ps[1..], es[1..]);
      assert Pairs(es) == [Shown(es[0].id, es[0].fields.description)] + Pairs(es[1..]);
    }
  }

  /** As long as no description holds a fence, the reader sees the pairs and then what the rest
      of the text holds. */
  lemma ReadsPrefix(read: string -> Option<Shown>, ps: seq<Piece>, es: seq<Exercise>, rest: string)
    requires Extracted(ps, es) && NoTicks(es) && ReadsPlaceholders(read)
    ensures ReadText(read, READER, Assemble(READER, Doc(AllAsRead(Placeholders(ps, es)), rest))) ==
            Pairs(es) + ReadText(read, READER, rest)
  {
    FenceIsValid();
    var qs := AllAsRead(Placeholders(ps, es));
    forall i | 0 <= i < |qs|
      ensures WellFormed(READER, qs[i])
      ensures read(qs[i].body) == Some(Shown(es[i].id, es[i].fields.description))
    {
      ReaderCloses(es[i].id, es[i].fields.description);
    }
    SplitAssemble(READER, Doc(qs, rest));
    ReadPiecesAppend(read, qs, Split(READER, rest).pieces);
    ReadsPairs(read, qs, es);
  }

  /** A placeholder whose description holds a fence is read as something else. */
  lemma ReadsCut(read: string -> Option<Shown>, p: Piece, e: Exercise, rest: string)
    requires Extracted([p], [e]) && !NoTicks([e]) && ReadsPlaceholders(read)
    ensures var shown := ReadText(read, READER, Print(SYNC, Placeholder(p, e), rest));
            shown != [] && shown[0] != Shown(e.id, e.fields.description)
  {
    FenceIsValid();
    var id, d := e.id, e.fields.description;
    assert [p][0] == p && [e][0] == e;
    var inner := PlaceholderBody(id, d) + (SYNC.close + rest);
    var s := Print(SYNC, Placeholder(p, e), rest);
    NoEarlyOpener(READER, p.pre, inner);
    Parts(p.pre, OPENER, inner);
    ReaderCuts(id, d, p.pre, SYNC.close + rest);
    OpensAt(READER, s, |p.pre|, p.pre, inner);
    OpensFirst(READER, s, Some(|p.pre|));
    var m := CloseBlock(READER, p.pre, inner);
    ReadFirst(read, READER, s, m);
    var x := d[..Find(d, TICKS).value];
    assert x <= d && x != d;
  }

  lemma FirstTicks(es: seq<Exercise>) returns (k: nat)
    requires !NoTicks(es)
    ensures k < |es| && NoTicks(es[..k]) && !NoTicks([es[k]])
  {
    k := 0;
    while !Contains(es[k].fields.description, TICKS)
      invariant k < |es| && NoTicks(es[..k])
      invariant exists i :: k <= i < |es| && Contains(es[i].fields.description, TICKS)
      decreases |es| - k
    {
      k := k + 1;
    }
    assert [es[k]][0] == es[k];
  }

  lemma PrefixThenRest<T>(s: seq<T>, a: seq<T>, k: nat)
    requires k < |s| && |a| == k && forall i :: 0 <= i < k ==> a[i] == s[i]
    ensures s == a + ([s[k]] + s[k + 1..])
  {
  }

  lemma CutPlaceholders(ps: seq<Piece>, es: seq<Exercise>, k: nat)
    requires |ps| == |es| && k < |ps|
    ensures Placeholders(ps, es) == Placeholders(ps[..k], es[..k]) +
            ([Placeholder(ps[k], es[k])] + Placeholders(ps, es)[k + 1..])
  {
    var ph, a := Placeholders(ps, es), Placeholders(ps[..k], es[..k]);
    forall i | 0 <= i < k
      ensures a[i] == ph[i]
    {
      assert ps[..k][i] == ps[i] && es[..k][i] == es[i];
    }
    PrefixThenRest(ph, a, k);
  }

  /** The text of block `k` on, with the blocks before it as the reader takes them. */
  lemma AssembleFrom(ps: seq<Piece>, es: seq<Exercise>, k: nat, tail: string) returns (rest: string)
    requires |ps| == |es| && k < |ps|
    ensures Assemble(SYNC, Doc(Placeholders(ps, es), tail)) ==
            Assemble(READER, Doc(AllAsRead(Placeholders(ps[..k], es[..k])), Print(SYNC, Placeholder(ps[k], es[k]), rest)))
  {
    CutPlaceholders(ps, es, k);
    var more := Placeholders(ps, es)[k + 1..];
    rest := Assemble(SYNC, Doc(more, tail));
    AssembleAsRead(Placeholders(ps[..k], es[..k]), [Placeholder(ps[k], es[k])] + more, tail);
    AssembleOne(SYNC, Placeholder(ps[k], es[k]), Doc(more, tail));
  }

  lemma ExtractedParts(ps: seq<Piece>, es: seq<Exercise>, k: nat)
    requires Extracted(ps, es) && k < |ps|
    ensures Extracted(ps[..k], es[..k]) && Extracted([ps[k]], [es[k]])
  {
  }

  lemma DifferAt(t: seq<Shown>, a: seq<Shown>, x: seq<Shown>, b: seq<Shown>)
    requires t == a + x && x != [] && |a| < |b| && x[0] != b[|a|]
    ensures |a| < |t| && t[|a|] != b[|a|]
  {
  }

  /** What is read up to block `k`, and the text from there on. */
  lemma ReadsUpTo(read: string -> Option<Shown>, ps: seq<Piece>, es: seq<Exercise>, k: nat, tail: string) returns (rest: string)
    requires Extracted(ps, es) && ReadsPlaceholders(read) && k < |es| && NoTicks(es[..k])
    ensures ReadText(read, READER, Assemble(SYNC, Doc(Placeholders(ps, es), tail))) ==
            Pairs(es[..k]) + ReadText(read, READER, Print(SYNC, Placeholder(ps[k], es[k]), rest))
  {
    ExtractedParts(ps, es, k);
    rest := AssembleFrom(ps, es, k, tail);
    ReadsPrefix(read, ps[..k], es[..k], Print(SYNC, Placeholder(ps[k], es[k]), rest));
  }

  /** If a description holds a fence, what is read differs from the pairs within their length. */
  lemma ReadsMismatch(read: string -> Option<Shown>, ps: seq<Piece>, es: seq<Exercise>, tail: string) returns (k: nat)
    requires Extracted(ps, es) && ReadsPlaceholders(read) && !NoTicks(es)
    ensures var t := ReadText(read, READER, Assemble(SYNC, Doc(Placeholders(ps, es), tail)));
            k < |es| && k < |t| && t[k] != Pairs(es)[k]
  {
    k := FirstTicks(es);
    var rest := ReadsUpTo(read, ps, es, k, tail);
    ExtractedParts(ps, es, k);
    ReadsCut(read, ps[k], es[k], rest);
    DifferAt(ReadText(read, READER, Assemble(SYNC, Doc(Placeholders(ps, es), tail))), Pairs(es[..k]),
             ReadText(read, READER, Print(SYNC, Placeholder(ps[k], es[k]), rest)), Pairs(es));
  }

  /** The reader finds exactly the extracted pairs, then whatever the tail holds, iff no
      description holds a fence. */
  lemma ReadsPairsIff(read: string -> Option<Shown>, ps: seq<Piece>, es: seq<Exercise>, tail: string)
    requires Extracted(ps, es) && ReadsPlaceholders(read)
    ensures ReadText(read, READER, Assemble(SYNC, Doc(Placeholders(ps, es), tail))) == Pairs(es) + ReadText(read, READER, tail)
            <==> NoTicks(es)
  {
    if NoTicks(es) {
      var ph := Placeholders(ps, es);
      AssembleAsRead(ph, [], tail);
      assert ph + [] == ph;
      ReadsPrefix(read, ps, es, tail);
    } else {
      var k := ReadsMismatch(read, ps, es, tail);
      assert (Pairs(es) + ReadText(read, READER, tail))[k] == Pairs(es)[k];
    }
  }

  // ---- Whole tasks ----

  lemma ExercisesAreGood(parse: Parser, task: nat, ps: seq<Piece>)
    requires GoodParser(parse) && ExtractPieces(parse, task, ps).Ok?
    ensures var es := ExtractPieces(parse, task, ps).value;
            && |es| == |ps|
            && forall i :: 0 <= i < |es| ==> GoodId(es[i].id) && GoodDescription(es[i].fields.description)
  {
    ExtractCounts(parse, task, ps);
    var es := ExtractPieces(parse, task, ps).value;
    forall i | 0 <= i < |es|
      ensures GoodId(es[i].id) && GoodDescription(es[i].fields.description)
    {
      IdIsGood(task, i + 1);
      assert parse(ps[i].body).Ok?;
    }
  }

  lemma TaskIsExtracted(parse: Parser, task: nat, text: string)
    requires GoodParser(parse) && ExtractTask(parse, task, text).Ok?
    ensures Extracted(Split(SYNC, text).pieces, ExtractTask(parse, task, text).value)
  {
    FenceIsValid();
    var ps := Split(SYNC, text).pieces;
    ExercisesAreGood(parse, task, ps);
    SplitIsWellFormed(SYNC, text);
    assert forall i :: 0 <= i < |ps| ==> WellFormed(SYNC, ps[i]);
  }

  /** Round trip: reading a rewritten task gives the extracted (id, description) pairs in order,
      followed by whatever the unrewritten text after the last block holds, exactly when no
      description contains a fence. */
  lemma RoundTripIff(task: nat, text: string)
    requires ExtractTask(ParseBody, task, text).Ok?
    ensures var es := ExtractTask(ParseBody, task, text).value;
            ReadBlocks(Rewritten(ParseBody, task, text)) == Pairs(es) + ReadBlocks(Split(SYNC, text).tail)
            <==> NoTicks(es)
  {
    ParseBodyIsGood();
    ReadBlockReads();
    TaskIsExtracted(ParseBody, task, text);
    var d := Split(SYNC, text);
    ReadsPairsIff(ReadBlock, d.pieces, ExtractTask(ParseBody, task, text).value, d.tail);
  }

  lemma PairsOnlyMismatch(task: nat, text: string)
    requires ExtractTask(ParseBody, task, text).Ok? && !NoTicks(ExtractTask(ParseBody, task, text).value)
    ensures ReadBlocks(Rewritten(ParseBody, task, text)) != Pairs(ExtractTask(ParseBody, task, text).value)
  {
    ParseBodyIsGood();
    ReadBlockReads();
    TaskIsExtracted(ParseBody, task, text);
    var d := Split(SYNC, text);
    var _ := ReadsMismatch(ReadBlock, d.pieces, ExtractTask(ParseBody, task, text).value, d.tail);
  }

  /** The reader finds the pairs and nothing else exactly if no description contains a fence and the
      tail shows it nothing. */
  lemma RoundTripExactIff(task: nat, text: string)
    requires ExtractTask(ParseBody, task, text).Ok?
    ensures var es := ExtractTask(ParseBody, task, text).value;
            ReadBlocks(Rewritten(ParseBody, task, text)) == Pairs(es)
            <==> NoTicks(es) && ReadBlocks(Split(SYNC, text).tail) == []
  {
    RoundTripIff(task, text);
    var es := ExtractTask(ParseBody, task, text).value;
    var tail := ReadBlocks(Split(SYNC, text).tail);
    if NoTicks(es) {
      assert Pairs(es) + tail == Pairs(es) <==> tail == [];
    } else {
      PairsOnlyMismatch(task, text);
    }
  }

  /** In particular, if the tail contains no opener, the reader finds the pairs and nothing else. */
  lemma RoundTripExact(task: nat, text: string)
    requires ExtractTask(ParseBody, task, text).Ok?
    requires NoTicks(ExtractTask(ParseBody, task, text).value)
    requires !Contains(Split(SYNC, text).tail, OPENER)
    ensures ReadBlocks(Rewritten(ParseBody, task, text)) == Pairs(ExtractTask(ParseBody, task, text).value)
  {
    RoundTripExactIff(task, text);
    var tail := Split(SYNC, text).tail;
    ReadFirst(ReadBlock, READER, tail, FirstBlock(READER, tail));
  }

  // ---- Whole labs ----

  function ReadLab(texts: seq<string>): seq<Shown> {
    if texts == [] then [] else ReadLab(texts[..|texts| - 1]) + ReadBlocks(texts[|texts| - 1])
  }

  ghost predicate NoOpenerAfter(content: seq<string>) {
    forall i :: 0 <= i < |content| ==> !Contains(Split(SYNC, content[i]).tail, OPENER)
  }

  lemma PairsAppend(a: seq<Exercise>, b: seq<Exercise>)
    ensures Pairs(a + b) == Pairs(a) + Pairs(b)
    ensures NoTicks(a + b) <==> NoTicks(a) && NoTicks(b)
  {
    var es := a + b;
    assert forall i :: 0 <= i < |a| ==> es[i] == a[i];
    assert forall i :: 0 <= i < |b| ==> es[|a| + i] == b[i];
  }

  lemma ReadLabSnoc(texts: seq<string>, text: string)
    ensures ReadLab(texts + [text]) == ReadLab(texts) + ReadBlocks(text)
  {
    assert (texts + [text])[..|texts|] == texts;
  }

  /** The frontend, reading a rewritten lab task by task, finds the exercises the synchroniser
      extracted, with the same ids and descriptions in the same order. */
  lemma {:induction false} LabRoundTrip(content: seq<string>)
    requires Extract(ParseBody, content).Ok?
    requires NoTicks(Extract(ParseBody, content).value) && NoOpenerAfter(content)
    ensures ReadLab(RewrittenAll(ParseBody, content)) == Pairs(Extract(ParseBody, content).value)
  {
    if content != [] {
      var init, text := content[..|content| - 1], content[|content| - 1];
      PairsAppend(Extract(ParseBody, init).value, ExtractTask(ParseBody, |content|, text).value);
      LabRoundTrip(init);
      RoundTripExact(|content|, text);
      ReadLabSnoc(RewrittenAll(ParseBody, init), Rewritten(ParseBody, |content|, text));
    }
  }

  // ---- What rewriting keeps and what it hides ----

  /** Rewriting leaves every character outside the blocks in place and keeps the blocks apart. */
  lemma RewritingKeepsText(parse: Parser, task: nat, text: string)
    requires GoodParser(parse) && ExtractTask(parse, task, text).Ok?
    ensures var d := Split(SYNC, text);
            var es := ExtractTask(parse, task, text).value;
            && |es| == |d.pieces|
            && Split(SYNC, Rewritten(parse, task, text)) == Doc(Placeholders(d.pieces, es), d.tail)
  {
    FenceIsValid();
    var d := Split(SYNC, text);
    var es := ExtractTask(parse, task, text).value;
    TaskIsExtracted(parse, task, text);
    SplitIsWellFormed(SYNC, text);
    var ph := Placeholders(d.pieces, es);
    forall i | 0 <= i < |ph|
      ensures WellFormed(SYNC, ph[i])
    {
      SyncCloses(es[i].id, es[i].fields.description);
    }
    SplitAssemble(SYNC, Doc(ph, d.tail));
    assert ph + [] == ph;
  }

  /** Two documents that differ only inside blocks, and there not in the description. */
  ghost predicate SameButHidden(parse: Parser, a: Doc, b: Doc) {
    && a.tail == b.tail
    && |a.pieces| == |b.pieces|
    && forall i :: 0 <= i < |a.pieces| ==>
         && a.pieces[i].pre == b.pieces[i].pre
         && parse(a.pieces[i].body).Ok? && parse(b.pieces[i].body).Ok?
         && parse(a.pieces[i].body).value.description == parse(b.pieces[i].body).value.description
  }

  lemma {:induction false} AllParse(parse: Parser, task: nat, ps: seq<Piece>)
    requires forall i :: 0 <= i < |ps| ==> parse(ps[i].body).Ok?
    ensures ExtractPieces(parse, task, ps).Ok?
  {
    if ps != [] {
      AllParse(parse, task, ps[..|ps| - 1]);
      ExtractCounts(parse, task, ps[..|ps| - 1]);
    }
  }

  lemma SamePlaceholders(parse: Parser, task: nat, a: Doc, b: Doc)
    requires SameButHidden(parse, a, b)
    ensures ExtractPieces(parse, task, a.pieces).Ok? && ExtractPieces(parse, task, b.pieces).Ok?
    ensures |ExtractPieces(parse, task, a.pieces).value| == |a.pieces|
    ensures |ExtractPieces(parse, task, b.pieces).value| == |b.pieces|
    ensures Placeholders(a.pieces, ExtractPieces(parse, task, a.pieces).value) ==
            Placeholders(b.pieces, ExtractPieces(parse, task, b.pieces).value)
  {
    AllParse(parse, task, a.pieces);
    AllParse(parse, task, b.pieces);
    ExtractCounts(parse, task, a.pieces);
    ExtractCounts(parse, task, b.pieces);
  }

  /** Texts built from such documents rewrite to the same text: type, asset and template leave no
      trace in what is published. */
  lemma RewritingHidesFields(parse: Parser, task: nat, a: Doc, b: Doc)
    requires SameButHidden(parse, a, b) && Split(SYNC, a.tail).pieces == []
    requires forall i :: 0 <= i < |a.pieces| ==> WellFormed(SYNC, a.pieces[i]) && WellFormed(SYNC, b.pieces[i])
    ensures ExtractTask(parse, task, Assemble(SYNC, a)).Ok? && ExtractTask(parse, task, Assemble(SYNC, b)).Ok?
    ensures Rewritten(parse, task, Assemble(SYNC, a)) == Rewritten(parse, task, Assemble(SYNC, b))
  {
    SplitOfDoc(a);
    SplitOfDoc(b);
    SamePlaceholders(parse, task, a, b);
  }

  lemma SplitOfDoc(d: Doc)
    requires Split(SYNC, d.tail).pieces == []
    requires forall i :: 0 <= i < |d.pieces| ==> WellFormed(SYNC, d.pieces[i])
    ensures Split(SYNC, Assemble(SYNC, d)) == d
  {
    FenceIsValid();
    SplitAssemble(SYNC, d);
    assert d.pieces + [] == d.pieces;
    TailUnsplit(d.tail);
  }

  lemma TailUnsplit(s: string)
    requires Split(SYNC, s).pieces == []
    ensures Split(SYNC, s).tail == s
  {
  }

  // ---- Ids ----

  /** Printed ids of different exercises differ, over all tasks. */
  lemma IdsDistinct(t1: nat, k1: nat, t2: nat, k2: nat)
    ensures ExerciseId(t1, k1) == ExerciseId(t2, k2) ==> t1 == t2 && k1 == k2
  {
    if ExerciseId(t1, k1) == ExerciseId(t2, k2) {
      assert '.' !in Dec(t1) && '.' !in Dec(t2);
      SplitAtSeparator(Dec(t1), Dec(k1), Dec(t2), Dec(k2), '.');
      DecInjective(t1, t2);
      DecInjective(k1, k2);
    }
  }

  /** An id printed for some exercise of the first `n` tasks. */
  ghost predicate IdUpTo(id: string, n: nat) {
    exists t: nat, k: nat :: t <= n && id == ExerciseId(t, k)
  }

  ghost predicate IdsDiffer(es: seq<Exercise>) {
    forall i, j :: 0 <= i < j < |es| ==> es[i].id != es[j].id
  }

  lemma LaterIdDiffers(id: string, n: nat, k: nat)
    requires IdUpTo(id, n)
    ensures id != ExerciseId(n + 1, k)
  {
    var t: nat, k': nat :| t <= n && id == ExerciseId(t, k');
    IdsDistinct(t, k', n + 1, k);
  }

  lemma TaskIds(parse: Parser, n: nat, text: string)
    requires ExtractTask(parse, n, text).Ok?
    ensures var es := ExtractTask(parse, n, text).value;
            IdsDiffer(es) && forall i :: 0 <= i < |es| ==> es[i].id == ExerciseId(n, i + 1)
  {
    ExtractCounts(parse, n, Split(SYNC, text).pieces);
    var es := ExtractTask(parse, n, text).value;
    forall i, j | 0 <= i < j < |es|
      ensures es[i].id != es[j].id
    {
      IdsDistinct(n, i + 1, n, j + 1);
    }
  }

  /** All exercises of a lab have different ids, so the grade map has one key for each. */
  lemma {:induction false} ExtractedIds(parse: Parser, content: seq<string>)
    requires Extract(parse, content).Ok?
    ensures IdsDiffer(Extract(parse, content).value)
    ensures forall e :: e in Extract(parse, content).value ==> IdUpTo(e.id, |content|)
  {
    if content != [] {
      var n := |content| - 1;
      ExtractedIds(parse, content[..n]);
      TaskIds(parse, n + 1, content[n]);
      var before := Extract(parse, content[..n]).value;
      var more := ExtractTask(parse, n + 1, content[n]).value;
      JoinIds(before, more, n);
    }
  }

  lemma JoinIds(before: seq<Exercise>, more: seq<Exercise>, n: nat)
    requires IdsDiffer(before) && IdsDiffer(more)
    requires forall e :: e in before ==> IdUpTo(e.id, n)
    requires forall i :: 0 <= i < |more| ==> more[i].id == ExerciseId(n + 1, i + 1)
    ensures IdsDiffer(before + more)
    ensures forall e :: e in before + more ==> IdUpTo(e.id, n + 1)
  {
    var es := before + more;
    forall i, j | 0 <= i < j < |es|
      ensures es[i].id != es[j].id
    {
      if i < |before| <= j {
        assert before[i] in before;
        LaterIdDiffers(before[i].id, n, j - |before| + 1);
      }
    }
    forall e | e in es
      ensures IdUpTo(e.id, n + 1)
    {
      if e in before {
        var t: nat, k: nat :| t <= n && e.id == ExerciseId(t, k);
      } else {
        var i :| 0 <= i < |more| && more[i] == e;
      }
    }
  }
}
