/** What the parser accepts and what it refuses, for any body, and which block stops a lab. */
module Parsing {
  import opened Options
  import opened Strings
  import opened Fences
  import opened Exercises

  // ---- One body ----

  predicate Has(line: string, tag: string) {
    tag <= line
  }

  function After(line: string, tag: string): string
    requires Has(line, tag)
  {
    Trim(line[|tag|..])
  }

  /** `k` is the first line with the template label, or there is none. */
  ghost predicate TemplateAt(lines: seq<string>, k: nat) {
    && k <= |lines|
    && (k < |lines| ==> Has(lines[k], "template:"))
    && forall i :: 0 <= i < k ==> !Has(lines[i], "template:")
  }

  /** Line `j` is the last with this label. */
  ghost predicate LastAt(lines: seq<string>, tag: string, j: nat) {
    j < |lines| && Has(lines[j], tag) && forall i :: j < i < |lines| ==> !Has(lines[i], tag)
  }

  ghost predicate GivenAt(lines: seq<string>, tag: string, v: string, j: nat) {
    LastAt(lines, tag, j) && v == After(lines[j], tag)
  }

  predicate NoneHas(lines: seq<string>, tag: string) {
    forall i :: 0 <= i < |lines| ==> !Has(lines[i], tag)
  }

  /** The value of a label, empty if no line has the label. */
  ghost predicate Gives(lines: seq<string>, tag: string, v: string) {
    (v == "" && NoneHas(lines, tag)) || exists j: nat :: GivenAt(lines, tag, v, j)
  }

  lemma GivesHere(lines: seq<string>, line: string, tag: string)
    requires Has(line, tag)
    ensures Gives(lines + [line], tag, After(line, tag))
  {
    assert GivenAt(lines + [line], tag, After(line, tag), |lines|);
  }

  lemma StillGiven(lines: seq<string>, line: string, tag: string, v: string, j: nat)
    requires !Has(line, tag) && GivenAt(lines, tag, v, j)
    ensures GivenAt(lines + [line], tag, v, j)
  {
  }

  lemma StillNone(lines: seq<string>, line: string, tag: string)
    requires !Has(line, tag) && NoneHas(lines, tag)
    ensures NoneHas(lines + [line], tag)
  {
  }

  lemma GivesStill(lines: seq<string>, line: string, tag: string, v: string)
    requires !Has(line, tag) && Gives(lines, tag, v)
    ensures Gives(lines + [line], tag, v)
  {
    if j: nat :| GivenAt(lines, tag, v, j) {
      StillGiven(lines, line, tag, v, j);
    } else {
      StillNone(lines, line, tag);
    }
  }

  lemma {:induction false} LastFieldGives(lines: seq<string>, tag: string)
    ensures Gives(lines, tag, OrEmpty(LastField(lines, tag)))
  {
    if lines != [] {
      var init, last := lines[..|lines| - 1], lines[|lines| - 1];
      assert init + [last] == lines;
      if Has(last, tag) {
        GivesHere(init, last, tag);
      } else {
        LastFieldGives(init, tag);
        GivesStill(init, last, tag, OrEmpty(LastField(init, tag)));
      }
    }
  }

  lemma GivenOnce(lines: seq<string>, tag: string, v: string, w: string, i: nat, j: nat)
    requires GivenAt(lines, tag, v, i) && GivenAt(lines, tag, w, j)
    ensures v == w
  {
    assert i == j;
  }

  /** There is only one such value. */
  lemma GivesOnce(lines: seq<string>, tag: string, v: string, w: string)
    requires Gives(lines, tag, v) && Gives(lines, tag, w)
    ensures v == w
  {
    if j: nat :| GivenAt(lines, tag, v, j) {
      var i: nat :| GivenAt(lines, tag, w, i);
      GivenOnce(lines, tag, v, w, j, i);
    }
  }

  /** `t` is `s` without the line breaks at its end. */
  ghost predicate Unended(s: string, t: string) {
    && t <= s
    && (t != "" ==> t[|t| - 1] != '\n')
    && forall i :: |t| <= i < |s| ==> s[i] == '\n'
  }

  lemma {:induction false} DropBreaksIs(s: string)
    ensures Unended(s, DropBreaks(s))
  {
    if s != [] && s[|s| - 1] == '\n' {
      DropBreaksIs(s[..|s| - 1]);
    }
  }

  /** The template line and the values of the labels before it. */
  ghost predicate Reads(body: string, k: nat, d: string, ty: string, a: string) {
    var lines := Lines(body);
    && TemplateAt(lines, k)
    && Gives(lines[..k], "description:", d)
    && Gives(lines[..k], "type:", ty)
    && Gives(lines[..k], "asset:", a)
  }

  lemma FieldsGiven(body: string, k: nat, d: string, ty: string, a: string)
    requires Reads(body, k, d, ty, a)
    ensures k <= |Lines(body)| && ParseBody(body) == Assembled(Lines(body), k, d, ty, a)
  {
    var lines := Lines(body);
    TemplateLineIs(lines, k);
    LastFieldGives(lines[..k], DESCRIPTION);
    LastFieldGives(lines[..k], TYPE);
    LastFieldGives(lines[..k], ASSET);
    GivesOnce(lines[..k], DESCRIPTION, d, OrEmpty(LastField(lines[..k], DESCRIPTION)));
    GivesOnce(lines[..k], TYPE, ty, OrEmpty(LastField(lines[..k], TYPE)));
    GivesOnce(lines[..k], ASSET, a, OrEmpty(LastField(lines[..k], ASSET)));
  }

  /** Any body: refused without a description, else without a type, else without a template line;
      otherwise its fields are the trimmed values of the last lines with their labels before that line,
      an empty asset counting as none, and all that follows it. */
  lemma ParseIs(body: string, k: nat, d: string, ty: string, a: string)
    requires Reads(body, k, d, ty, a)
    ensures ParseBody(body) == Err(NoDescription) <==> d == ""
    ensures ParseBody(body) == Err(NoType) <==> d != "" && ty == ""
    ensures ParseBody(body) == Err(NoTemplate) <==> d != "" && ty != "" && k == |Lines(body)|
    ensures ParseBody(body).Ok? <==> d != "" && ty != "" && k < |Lines(body)|
    ensures ParseBody(body).Ok? ==>
              var f := ParseBody(body).value;
              && f.description == d && f.kind == ty && (if a == "" then f.asset == None else f.asset == Some(a))
              && Unended(JoinLines(Lines(body)[k + 1..]), f.template)
  {
    FieldsGiven(body, k, d, ty, a);
    if k < |Lines(body)| {
      DropBreaksIs(JoinLines(Lines(body)[k + 1..]));
    }
  }

  /** Every body has them. */
  lemma ParseReads(body: string) returns (k: nat, d: string, ty: string, a: string)
    ensures Reads(body, k, d, ty, a)
  {
    var lines := Lines(body);
    k := TemplateLine(lines);
    d := OrEmpty(LastField(lines[..k], DESCRIPTION));
    ty := OrEmpty(LastField(lines[..k], TYPE));
    a := OrEmpty(LastField(lines[..k], ASSET));
    LastFieldGives(lines[..k], DESCRIPTION);
    LastFieldGives(lines[..k], TYPE);
    LastFieldGives(lines[..k], ASSET);
  }

  // ---- The block that stops a lab ----

  function Bodies(text: string): (r: seq<string>)
    ensures |r| == |Split(SYNC, text).pieces|
  {
    var ps := Split(SYNC, text).pieces;
    seq(|ps|, i requires 0 <= i < |ps| => ps[i].body)
  }

  /** The first `n` blocks of a text parse. */
  ghost predicate ParseUpTo(parse: Parser, bodies: seq<string>, n: nat)
    requires n <= |bodies|
  {
    forall i :: 0 <= i < n ==> parse(bodies[i]).Ok?
  }

  /** Block `k`, numbered from one, is the first that does not parse. */
  ghost predicate StopsAt(parse: Parser, bodies: seq<string>, k: nat, fault: Fault) {
    1 <= k <= |bodies| && ParseUpTo(parse, bodies, k - 1) && parse(bodies[k - 1]) == Err(fault)
  }

  ghost predicate AllParse(parse: Parser, bodies: seq<string>) {
    ParseUpTo(parse, bodies, |bodies|)
  }

  /** Text `t` is the first with a block that does not parse, and block `k` the first in it. */
  ghost predicate FirstFault(parse: Parser, content: seq<string>, t: nat, k: nat, fault: Fault) {
    && 1 <= t <= |content|
    && (forall i :: 0 <= i < t - 1 ==> AllParse(parse, Bodies(content[i])))
    && StopsAt(parse, Bodies(content[t - 1]), k, fault)
  }

  ghost predicate PiecesResult(parse: Parser, task: nat, bodies: seq<string>, r: Result<seq<Exercise>, Position>) {
    match r
    case Ok(_) => AllParse(parse, bodies)
    case Err(p) => p.task == task && StopsAt(parse, bodies, p.exercise, p.fault)
  }

  lemma OneMoreBody(parse: Parser, bodies: seq<string>, body: string)
    ensures AllParse(parse, bodies + [body]) <==> AllParse(parse, bodies) && parse(body).Ok?
    ensures forall k, fault :: StopsAt(parse, bodies, k, fault) ==> StopsAt(parse, bodies + [body], k, fault)
    ensures AllParse(parse, bodies) && parse(body).Err? ==> StopsAt(parse, bodies + [body], |bodies| + 1, parse(body).error)
  {
    var all := bodies + [body];
    assert all[|bodies|] == body;
    assert forall i :: 0 <= i < |bodies| ==> all[i] == bodies[i];
  }

  lemma {:induction false} PiecesFault(parse: Parser, task: nat, ps: seq<Piece>, bodies: seq<string>)
    requires |bodies| == |ps| && forall i :: 0 <= i < |ps| ==> bodies[i] == ps[i].body
    ensures PiecesResult(parse, task, bodies, ExtractPieces(parse, task, ps))
  {
    if ps != [] {
      var n := |ps| - 1;
      PiecesFault(parse, task, ps[..n], bodies[..n]);
      OneMoreBody(parse, bodies[..n], bodies[n]);
      assert bodies[..n] + [bodies[n]] == bodies;
    }
  }

  ghost predicate LabResult(parse: Parser, content: seq<string>, r: Result<seq<Exercise>, Position>) {
    match r
    case Ok(_) => forall i :: 0 <= i < |content| ==> AllParse(parse, Bodies(content[i]))
    case Err(p) => FirstFault(parse, content, p.task, p.exercise, p.fault)
  }

  lemma OneMoreTask(parse: Parser, content: seq<string>, text: string, before: Result<seq<Exercise>, Position>,
                    more: Result<seq<Exercise>, Position>, all: Result<seq<Exercise>, Position>)
    requires LabResult(parse, content, before) && PiecesResult(parse, |content| + 1, Bodies(text), more)
    requires if before.Err? then all == before else if more.Err? then all == more else all.Ok?
    ensures LabResult(parse, content + [text], all)
  {
    var longer := content + [text];
    assert longer[|content|] == text;
    assert forall i :: 0 <= i < |content| ==> longer[i] == content[i];
  }

  /** Extraction succeeds exactly if every block of every text parses; otherwise it names the first one
      that does not, by the number of its text, its number there and its fault. */
  lemma {:induction false} FailsAtFirst(parse: Parser, content: seq<string>)
    ensures match Extract(parse, content)
            case Ok(_) => forall i :: 0 <= i < |content| ==> AllParse(parse, Bodies(content[i]))
            case Err(p) => FirstFault(parse, content, p.task, p.exercise, p.fault)
  {
    LabFault(parse, content);
  }

  lemma {:induction false} LabFault(parse: Parser, content: seq<string>)
    ensures LabResult(parse, content, Extract(parse, content))
  {
    if content != [] {
      var n := |content| - 1;
      var init, text := content[..n], content[n];
      LabFault(parse, init);
      PiecesFault(parse, n + 1, Split(SYNC, text).pieces, Bodies(text));
      OneMoreTask(parse, init, text, Extract(parse, init), ExtractTask(parse, n + 1, text), Extract(parse, content));
      assert init + [text] == content;
    }
  }
}
