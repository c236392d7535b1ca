/** A whole lab, rewritten and read back: exactly when the frontend finds the extracted exercises. */
module LabReading {
  import opened Strings
  import opened Fences
  import opened Exercises
  import opened Reader
  import opened RoundTrip

  // ---- What the reader can show ----

  lemma NotInPart(pre: string, t: string, post: string, p: string)
    requires !Contains(pre + (t + post), p)
    ensures !Contains(t, p)
  {
    if Contains(t, p) {
      FindInLonger(t, post, p);
      AtAfter(pre, t + post, p, Find(t, p).value);
    }
  }

  lemma NotInSlice(s: string, p: string, a: nat, b: nat, t: string)
    requires !Contains(s, p) && a <= b <= |s| && t == s[a..b]
    ensures !Contains(t, p)
  {
    assert s == s[..a] + (t + s[b..]);
    NotInPart(s[..a], t, s[b..], p);
  }

  lemma NotInTrimmed(s: string, p: string)
    requires !Contains(s, p)
    ensures !Contains(Trim(s), p)
  {
    var n := SpaceRun(s);
    NotInSlice(s, p, n, |s|, s[n..]);
    NotInSlice(s[n..], p, 0, |Trim(s)|, Trim(s));
  }

  lemma ValueWithoutTicks(r: string)
    requires !Contains(r, TICKS) && FieldValue(r).Some?
    ensures !Contains(FieldValue(r).value, TICKS)
  {
    var w := SpaceRun(r);
    if w < |r| {
      NotInSlice(r, TICKS, w, |r|, r[w..]);
      var n := LineLength(r[w..]);
      NotInSlice(r[w..], TICKS, 0, n, r[w..][..n]);
      NotInTrimmed(r[w..][..n], TICKS);
    }
  }

  lemma {:induction false} FieldWithoutTicks(s: string, tag: string, lineStart: bool)
    requires !Contains(s, TICKS) && ReadField(s, tag, lineStart).Some?
    ensures !Contains(ReadField(s, tag, lineStart).value, TICKS)
    decreases |s|
  {
    if lineStart && tag <= s && FieldValue(s[|tag|..]).Some? {
      NotInSlice(s, TICKS, |tag|, |s|, s[|tag|..]);
      ValueWithoutTicks(s[|tag|..]);
    } else {
      NotInSlice(s, TICKS, 1, |s|, s[1..]);
      FieldWithoutTicks(s[1..], tag, s[0] == '\n');
    }
  }

  lemma BodyWithoutTicks(text: string)
    requires FirstBlock(READER, text).Block?
    ensures !Contains(FirstBlock(READER, text).piece.body, TICKS)
  {
    var pre, inner := OpenerParts(READER, text);
    CloseBlockParts(READER, pre, inner);
    var m := FirstBlock(READER, text);
    NotInShorter(m.piece.body, READER.close + m.rest, TICKS);
  }

  predicate PlainShown(shown: seq<Shown>) {
    forall i :: 0 <= i < |shown| ==> !Contains(shown[i].description, TICKS)
  }

  lemma PlainAppend(a: seq<Shown>, b: seq<Shown>)
    requires PlainShown(a) && PlainShown(b)
    ensures PlainShown(a + b)
  {
  }

  lemma BlockShowsNoTicks(body: string)
    requires !Contains(body, TICKS)
    ensures PlainShown(ReadOne(ReadBlock, body))
  {
    if ReadBlock(body).Some? {
      FieldWithoutTicks(body, DESCRIPTION, true);
    }
  }

  /** No description the reader shows contains a fence, whatever the text. */
  lemma {:induction false} ReaderShowsNoTicks(text: string)
    ensures PlainShown(ReadBlocks(text))
    decreases |text|
  {
    var m := FirstBlock(READER, text);
    ReadFirst(ReadBlock, READER, text, m);
    if m.Block? {
      FirstBlockShorter(READER, text);
      ReaderShowsNoTicks(m.rest);
      BodyWithoutTicks(text);
      BlockShowsNoTicks(m.piece.body);
      PlainAppend(ReadOne(ReadBlock, m.piece.body), ReadBlocks(m.rest));
    }
  }

  // ---- One text ----

  /** A text's pairs, what the reader shows of the rewritten text, and what it shows of the tail. */
  datatype Part = Part(pairs: seq<Shown>, seen: seq<Shown>, tail: seq<Shown>)

  /** A description with a fence makes the two differ within their length; before it they agree, and
      without one the reader shows the pairs and then the tail. */
  ghost predicate Fits(p: Part) {
    && PlainShown(p.tail)
    && (PlainShown(p.pairs) ==> p.seen == p.pairs + p.tail)
    && (!PlainShown(p.pairs) ==> exists k :: 0 <= k < |p.pairs| && k < |p.seen| && p.seen[k] != p.pairs[k])
    && (p.pairs != [] && !Contains(p.pairs[0].description, TICKS) ==> p.seen != [] && p.seen[0] == p.pairs[0])
  }

  function PartOf(task: nat, text: string): Part
    requires ExtractTask(ParseBody, task, text).Ok?
  {
    Part(Pairs(ExtractTask(ParseBody, task, text).value),
         ReadBlocks(Rewritten(ParseBody, task, text)),
         ReadBlocks(Split(SYNC, text).tail))
  }

  lemma PlainPairs(es: seq<Exercise>)
    ensures PlainShown(Pairs(es)) <==> NoTicks(es)
  {
    assert forall i :: 0 <= i < |es| ==> Pairs(es)[i].description == es[i].fields.description;
  }

  lemma FencedDiffers(task: nat, text: string)
    requires ExtractTask(ParseBody, task, text).Ok? && !NoTicks(ExtractTask(ParseBody, task, text).value)
    ensures var p := PartOf(task, text);
            exists k :: 0 <= k < |p.pairs| && k < |p.seen| && p.seen[k] != p.pairs[k]
  {
    ParseBodyIsGood();
    ReadBlockReads();
    TaskIsExtracted(ParseBody, task, text);
    var d := Split(SYNC, text);
    var k := ReadsMismatch(ReadBlock, d.pieces, ExtractTask(ParseBody, task, text).value, d.tail);
    assert PartOf(task, text).seen[k] != PartOf(task, text).pairs[k];
  }

  lemma HeadOfPairs(es: seq<Exercise>, k: nat, more: seq<Shown>)
    requires 0 < k <= |es|
    ensures Pairs(es[..k]) + more != [] && (Pairs(es[..k]) + more)[0] == Pairs(es)[0]
  {
  }

  lemma FirstIsRead(task: nat, text: string)
    requires ExtractTask(ParseBody, task, text).Ok? && !NoTicks(ExtractTask(ParseBody, task, text).value)
    requires !Contains(ExtractTask(ParseBody, task, text).value[0].fields.description, TICKS)
    ensures var p := PartOf(task, text);
            p.pairs != [] && p.seen != [] && p.seen[0] == p.pairs[0]
  {
    ParseBodyIsGood();
    ReadBlockReads();
    TaskIsExtracted(ParseBody, task, text);
    var d, es := Split(SYNC, text), ExtractTask(ParseBody, task, text).value;
    var k := FirstTicks(es);
    assert [es[k]][0] == es[k];
    var rest := ReadsUpTo(ReadBlock, d.pieces, es, k, d.tail);
    HeadOfPairs(es, k, ReadText(ReadBlock, READER, Print(SYNC, Placeholder(d.pieces[k], es[k]), rest)));
  }

  lemma PartFits(task: nat, text: string)
    requires ExtractTask(ParseBody, task, text).Ok?
    ensures Fits(PartOf(task, text))
  {
    var es := ExtractTask(ParseBody, task, text).value;
    ReaderShowsNoTicks(Split(SYNC, text).tail);
    PlainPairs(es);
    if NoTicks(es) {
      RoundTripIff(task, text);
    } else {
      FencedDiffers(task, text);
      if !Contains(es[0].fields.description, TICKS) {
        FirstIsRead(task, text);
      }
    }
  }

  // ---- All texts ----

  function AllPairs(ps: seq<Part>): seq<Shown> {
    if ps == [] then [] else ps[0].pairs + AllPairs(ps[1..])
  }

  function AllReads(ps: seq<Part>): seq<Shown> {
    if ps == [] then [] else ps[0].seen + AllReads(ps[1..])
  }

  ghost predicate ShownDiffer(shown: seq<Shown>) {
    forall i, j :: 0 <= i < j < |shown| ==> shown[i] != shown[j]
  }

  ghost predicate Exact(ps: seq<Part>) {
    forall i :: 0 <= i < |ps| ==> PlainShown(ps[i].pairs) && ps[i].tail == []
  }

  /** The first pair of all, unless it holds a fence, is read somewhere. */
  lemma {:induction false} FirstPairIsRead(ps: seq<Part>)
    requires forall i :: 0 <= i < |ps| ==> Fits(ps[i])
    requires AllPairs(ps) != [] && !Contains(AllPairs(ps)[0].description, TICKS)
    ensures AllPairs(ps)[0] in AllReads(ps)
  {
    assert Fits(ps[0]);
    if ps[0].pairs == [] {
      FirstPairIsRead(ps[1..]);
    } else {
      assert AllReads(ps)[0] == ps[0].seen[0];
    }
  }

  /** A shown tail would have to be the next pair, which is read once more further on. */
  lemma TailIsShownTwice(tail: seq<Shown>, seen: seq<Shown>, pairs: seq<Shown>)
    requires tail + seen == pairs && ShownDiffer(pairs) && tail != []
    ensures pairs[0] == tail[0] && pairs[0] !in seen
  {
    forall j | 0 <= j < |seen|
      ensures seen[j] != pairs[0]
    {
      assert pairs[|tail| + j] == seen[j];
    }
  }

  lemma DifferInside(a: seq<Shown>, x: seq<Shown>, b: seq<Shown>, y: seq<Shown>, k: nat)
    requires k < |a| && k < |b| && a[k] != b[k]
    ensures a + x != b + y
  {
    assert (a + x)[k] == a[k] && (b + y)[k] == b[k];
  }

  lemma DropCommon(a: seq<Shown>, x: seq<Shown>, y: seq<Shown>)
    ensures a + x == a + y <==> x == y
  {
    assert (a + x)[|a|..] == x && (a + y)[|a|..] == y;
  }

  lemma LaterDiffer(a: seq<Shown>, b: seq<Shown>)
    requires ShownDiffer(a + b)
    ensures ShownDiffer(b)
  {
    forall i, j | 0 <= i < j < |b|
      ensures b[i] != b[j]
    {
      assert (a + b)[|a| + i] == b[i] && (a + b)[|a| + j] == b[j];
    }
  }

  lemma PlainPart(p: Part, seen: seq<Shown>, pairs: seq<Shown>)
    requires Fits(p) && p.seen + seen == p.pairs + pairs
    ensures PlainShown(p.pairs) && p.tail + seen == pairs
  {
    if !PlainShown(p.pairs) {
      var k :| 0 <= k < |p.pairs| && k < |p.seen| && p.seen[k] != p.pairs[k];
      DifferInside(p.seen, seen, p.pairs, pairs, k);
    }
    assert p.pairs + p.tail + seen == p.pairs + (p.tail + seen);
    DropCommon(p.pairs, p.tail + seen, pairs);
  }

  /** If what is read over all texts is what was extracted, it is so in each of them: a block too many
      in one text cannot make up for one missing in another. */
  lemma {:induction false} ExactInEach(ps: seq<Part>)
    requires (forall i :: 0 <= i < |ps| ==> Fits(ps[i])) && ShownDiffer(AllPairs(ps))
    requires AllReads(ps) == AllPairs(ps)
    ensures Exact(ps)
  {
    if ps != [] {
      var p, more := ps[0], ps[1..];
      PlainPart(p, AllReads(more), AllPairs(more));
      LaterDiffer(p.pairs, AllPairs(more));
      if p.tail != [] {
        TailIsShownTwice(p.tail, AllReads(more), AllPairs(more));
        FirstPairIsRead(more);
      }
      assert [] + AllReads(more) == AllReads(more);
      ExactInEach(more);
    }
  }

  lemma {:induction false} ExactInAll(ps: seq<Part>)
    requires (forall i :: 0 <= i < |ps| ==> Fits(ps[i])) && Exact(ps)
    ensures AllReads(ps) == AllPairs(ps)
  {
    if ps != [] {
      assert Fits(ps[0]);
      assert ps[0].pairs + [] == ps[0].pairs;
      ExactInAll(ps[1..]);
    }
  }

  // ---- The lab ----

  function PartsOf(content: seq<string>): (ps: seq<Part>)
    requires Extract(ParseBody, content).Ok?
    ensures |ps| == |content|
  {
    if content == [] then []
    else PartsOf(content[..|content| - 1]) + [PartOf(|content|, content[|content| - 1])]
  }

  lemma {:induction false} AllSnoc(ps: seq<Part>, p: Part)
    ensures AllPairs(ps + [p]) == AllPairs(ps) + p.pairs
    ensures AllReads(ps + [p]) == AllReads(ps) + p.seen
  {
    if ps == [] {
      assert ps + [p] == [p] && [p][1..] == [];
    } else {
      AllSnoc(ps[1..], p);
      assert (ps + [p])[1..] == ps[1..] + [p];
    }
  }

  lemma {:induction false} LabIsItsParts(content: seq<string>)
    requires Extract(ParseBody, content).Ok?
    ensures AllPairs(PartsOf(content)) == Pairs(Extract(ParseBody, content).value)
    ensures AllReads(PartsOf(content)) == ReadLab(RewrittenAll(ParseBody, content))
  {
    if content != [] {
      var init, text := content[..|content| - 1], content[|content| - 1];
      LabIsItsParts(init);
      AllSnoc(PartsOf(init), PartOf(|content|, text));
      PairsAppend(Extract(ParseBody, init).value, ExtractTask(ParseBody, |content|, text).value);
      ReadLabSnoc(RewrittenAll(ParseBody, init), Rewritten(ParseBody, |content|, text));
    }
  }

  lemma {:induction false} PartsFit(content: seq<string>)
    requires Extract(ParseBody, content).Ok?
    ensures forall i :: 0 <= i < |content| ==> Fits(PartsOf(content)[i])
  {
    if content != [] {
      PartsFit(content[..|content| - 1]);
      PartFits(|content|, content[|content| - 1]);
    }
  }

  /** The reader shows nothing of the text after the last block of any task. */
  ghost predicate EmptyTails(content: seq<string>) {
    forall i :: 0 <= i < |content| ==> ReadBlocks(Split(SYNC, content[i]).tail) == []
  }

  /** What a lab of one more text extracts and consists of. */
  lemma OneMoreText(content: seq<string>, init: seq<string>, text: string)
    requires content == init + [text] && Extract(ParseBody, content).Ok?
    ensures Extract(ParseBody, init).Ok? && ExtractTask(ParseBody, |content|, text).Ok?
    ensures Extract(ParseBody, content).value ==
            Extract(ParseBody, init).value + ExtractTask(ParseBody, |content|, text).value
    ensures PartsOf(content) == PartsOf(init) + [PartOf(|content|, text)]
  {
    assert content[..|content| - 1] == init;
  }

  ghost predicate ExactMeans(content: seq<string>, es: seq<Exercise>, ps: seq<Part>) {
    Exact(ps) <==> NoTicks(es) && EmptyTails(content)
  }

  lemma ExactOneMore(content: seq<string>, init: seq<string>, text: string, es: seq<Exercise>, more: seq<Exercise>,
                     ps: seq<Part>, p: Part)
    requires content == init + [text] && ExactMeans(init, es, ps)
    requires p.pairs == Pairs(more) && p.tail == ReadBlocks(Split(SYNC, text).tail)
    ensures ExactMeans(content, es + more, ps + [p])
  {
    PairsAppend(es, more);
    PlainPairs(more);
    ExactSnoc(ps, p);
    EmptyTailsSnoc(init, text);
  }

  lemma ExactStep(content: seq<string>, init: seq<string>, text: string, es: seq<Exercise>, ps: seq<Part>)
    requires content == init + [text] && Extract(ParseBody, content).Ok? && Extract(ParseBody, init).Ok?
    requires es == Extract(ParseBody, init).value && ps == PartsOf(init) && ExactMeans(init, es, ps)
    ensures ExactMeans(content, Extract(ParseBody, content).value, PartsOf(content))
  {
    OneMoreText(content, init, text);
    ExactOneMore(content, init, text, es, ExtractTask(ParseBody, |content|, text).value, ps, PartOf(|content|, text));
  }

  lemma ExactNone()
    ensures ExactMeans([], [], [])
  {
  }

  lemma InitAndLast(content: seq<string>) returns (init: seq<string>, text: string)
    requires content != []
    ensures content == init + [text]
  {
    init, text := content[..|content| - 1], content[|content| - 1];
  }

  lemma {:induction false} ExactParts(content: seq<string>)
    requires Extract(ParseBody, content).Ok?
    ensures ExactMeans(content, Extract(ParseBody, content).value, PartsOf(content))
    decreases |content|
  {
    if content == [] {
      ExactNone();
    } else {
      var init, text := InitAndLast(content);
      OneMoreText(content, init, text);
      ExactParts(init);
      ExactStep(content, init, text, Extract(ParseBody, init).value, PartsOf(init));
    }
  }

  lemma ExactSnoc(ps: seq<Part>, p: Part)
    ensures Exact(ps + [p]) <==> Exact(ps) && PlainShown(p.pairs) && p.tail == []
  {
    var all := ps + [p];
    assert all[|ps|] == p;
    assert forall i :: 0 <= i < |ps| ==> all[i] == ps[i];
  }

  lemma EmptyTailsSnoc(content: seq<string>, text: string)
    ensures EmptyTails(content + [text]) <==> EmptyTails(content) && ReadBlocks(Split(SYNC, text).tail) == []
  {
    var all := content + [text];
    assert all[|content|] == text;
    assert forall i :: 0 <= i < |content| ==> all[i] == content[i];
  }

  lemma PairsDiffer(es: seq<Exercise>)
    requires IdsDiffer(es)
    ensures ShownDiffer(Pairs(es))
  {
    assert forall i :: 0 <= i < |es| ==> Pairs(es)[i].id == es[i].id;
  }

  /** Over a whole lab the frontend finds the extracted exercises and nothing else exactly if no
      description contains a fence and no text after a last block shows it anything. */
  lemma LabRoundTripIff(content: seq<string>)
    requires Extract(ParseBody, content).Ok?
    ensures ReadLab(RewrittenAll(ParseBody, content)) == Pairs(Extract(ParseBody, content).value)
            <==> NoTicks(Extract(ParseBody, content).value) && EmptyTails(content)
  {
    var ps, es := PartsOf(content), Extract(ParseBody, content).value;
    LabIsItsParts(content);
    PartsFit(content);
    ExactParts(content);
    ExtractedIds(ParseBody, content);
    PairsDiffer(es);
    if AllReads(ps) == AllPairs(ps) {
      ExactInEach(ps);
    }
    if Exact(ps) {
      ExactInAll(ps);
    }
  }
}
