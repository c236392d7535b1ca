/** Exercise blocks in task markdown: the synchroniser extracts them and rewrites each to a
    placeholder, the frontend reads the placeholders back with a different fence pattern. */
module Exercises {
  import opened Options
  import opened Strings
  import opened Fences

  const OPENER := "```exercise\n"
  const TICKS := "```"

  /** The synchroniser's pattern closes on its own line, the frontend's closes anywhere. */
  const SYNC := Fence(OPENER, "\n```")
  const READER := Fence(OPENER, "```")

  // ---- Parsing one block ----

  datatype Fields = Fields(description: string, kind: string, asset: Option<string>, template: string)

  datatype Fault = NoDescription | NoType | NoTemplate

  datatype Result<+T, +E> = Ok(value: T) | Err(error: E)

  const DESCRIPTION := "description:"
  const TYPE := "type:"
  const ASSET := "asset:"
  const TEMPLATE := "template:"

  /** The value given by the last line with this label. */
  function LastField(lines: seq<string>, tag: string): Option<string> {
    if lines == [] then None
    else
      var last := lines[|lines| - 1];
      if tag <= last then Some(Trim(last[|tag|..])) else LastField(lines[..|lines| - 1], tag)
  }

  function TemplateLine(lines: seq<string>): (k: nat)
    ensures k <= |lines|
    ensures k < |lines| ==> TEMPLATE <= lines[k]
    ensures forall i :: 0 <= i < k ==> !(TEMPLATE <= lines[i])
  {
    if lines == [] || TEMPLATE <= lines[0] then 0 else 1 + TemplateLine(lines[1..])
  }

  function OrEmpty(v: Option<string>): string {
    match v case None => "" case Some(s) => s
  }

  function Assembled(lines: seq<string>, k: nat, d: string, ty: string, asset: string): Result<Fields, Fault>
    requires k <= |lines|
  {
    if d == "" then Err(NoDescription)
    else if ty == "" then Err(NoType)
    else if k == |lines| then Err(NoTemplate)
    else Ok(Fields(d, ty, if asset == "" then None else Some(asset), DropBreaks(JoinLines(lines[k + 1..]))))
  }

  /** Labelled lines up to the template line, in any order; the last of each label counts. */
  function ParseBody(body: string): Result<Fields, Fault> {
    var lines := Lines(body);
    var k := TemplateLine(lines);
    Assembled(lines, k,
      OrEmpty(LastField(lines[..k], DESCRIPTION)),
      OrEmpty(LastField(lines[..k], TYPE)),
      OrEmpty(LastField(lines[..k], ASSET)))
  }

  lemma LabelsDiffer(line: string)
    ensures DESCRIPTION <= line ==> !(TYPE <= line) && !(ASSET <= line) && !(TEMPLATE <= line)
    ensures TYPE <= line ==> !(ASSET <= line) && !(TEMPLATE <= line)
    ensures ASSET <= line ==> !(TEMPLATE <= line)
  {
    if line != "" {
      assert DESCRIPTION <= line ==> line[0] == 'd';
      assert ASSET <= line ==> line[0] == 'a';
      assert TYPE <= line ==> line[0] == 't' && line[1] == 'y';
      assert TEMPLATE <= line ==> line[0] == 't' && line[1] == 'e';
    }
  }

  lemma TemplateLineIs(lines: seq<string>, k: nat)
    requires k <= |lines| && (k < |lines| ==> TEMPLATE <= lines[k])
    requires forall i :: 0 <= i < k ==> !(TEMPLATE <= lines[i])
    ensures TemplateLine(lines) == k
  {
  }

  /** The three labelled fields seen so far. */
  datatype Seen = Seen(description: Option<string>, kind: Option<string>, asset: Option<string>)

  function Note(s: Seen, line: string): Seen {
    if DESCRIPTION <= line then s.(description := Some(Trim(line[|DESCRIPTION|..])))
    else if TYPE <= line then s.(kind := Some(Trim(line[|TYPE|..])))
    else if ASSET <= line then s.(asset := Some(Trim(line[|ASSET|..])))
    else s
  }

  function NoteAll(lines: seq<string>): Seen {
    if lines == [] then Seen(None, None, None) else Note(NoteAll(lines[..|lines| - 1]), lines[|lines| - 1])
  }

  /** Trying the labels in turn gives each field its last line. */
  lemma {:induction false} NoteAllIsLast(lines: seq<string>)
    ensures NoteAll(lines) ==
            Seen(LastField(lines, DESCRIPTION), LastField(lines, TYPE), LastField(lines, ASSET))
  {
    if lines != [] {
      NoteAllIsLast(lines[..|lines| - 1]);
      LabelsDiffer(lines[|lines| - 1]);
    }
  }

  method ScanFields(lines: seq<string>) returns (seen: Seen, k: nat)
    ensures k == TemplateLine(lines) && seen == NoteAll(lines[..k])
  {
    seen := Seen(None, None, None);
    k := 0;
    while k < |lines|
      invariant k <= |lines| && seen == NoteAll(lines[..k])
      invariant forall j :: 0 <= j < k ==> !(TEMPLATE <= lines[j])
    {
      var line := lines[k];
      LabelsDiffer(line);
      assert lines[..k + 1][..k] == lines[..k];
      var matched := DESCRIPTION <= line || TYPE <= line || ASSET <= line;
      if !matched && TEMPLATE <= line {
        break;
      }
      seen := Note(seen, line);
      k := k + 1;
    }
    TemplateLineIs(lines, k);
  }

  method ParseExerciseBlock(body: string) returns (r: Result<Fields, Fault>)
    ensures r == ParseBody(body)
  {
    var lines := Lines(body);
    var seen, k := ScanFields(lines);
    NoteAllIsLast(lines[..k]);
    var description := OrEmpty(seen.description);
    if description == "" {
      return Err(NoDescription);
    }
    var kind := OrEmpty(seen.kind);
    if kind == "" {
      return Err(NoType);
    }
    if k == |lines| {
      return Err(NoTemplate);
    }
    var asset := OrEmpty(seen.asset);
    r := Ok(Fields(description, kind, if asset == "" then None else Some(asset),
                   DropBreaks(JoinLines(lines[k + 1..]))));
  }

  // ---- Extraction and rewriting ----

  /** How a block's body is parsed; `ParseBody` is the one in use. */
  type Parser = string -> Result<Fields, Fault>

  datatype Exercise = Exercise(id: string, fields: Fields)

  /** Where a block does not parse, both numbers from one. */
  datatype Position = Position(task: nat, exercise: nat, fault: Fault)

  function ExerciseId(task: nat, exercise: nat): string {
    Dec(task) + "." + Dec(exercise)
  }

  /** Exercises of the blocks of task number `task`, or the first block that does not parse. */
  function ExtractPieces(parse: Parser, task: nat, ps: seq<Piece>): Result<seq<Exercise>, Position> {
    if ps == [] then Ok([])
    else
      match ExtractPieces(parse, task, ps[..|ps| - 1])
      case Err(e) => Err(e)
      case Ok(before) =>
        match parse(ps[|ps| - 1].body)
        case Err(e) => Err(Position(task, |ps|, e))
        case Ok(f) => Ok(before + [Exercise(ExerciseId(task, |ps|), f)])
  }

  function ExtractTask(parse: Parser, task: nat, text: string): Result<seq<Exercise>, Position> {
    ExtractPieces(parse, task, Split(SYNC, text).pieces)
  }

  function Extract(parse: Parser, content: seq<string>): Result<seq<Exercise>, Position> {
    if content == [] then Ok([])
    else
      match Extract(parse, content[..|content| - 1])
      case Err(e) => Err(e)
      case Ok(before) =>
        match ExtractTask(parse, |content|, content[|content| - 1])
        case Err(e) => Err(e)
        case Ok(more) => Ok(before + more)
  }

  method ExtractTaskExercises(parse: Parser, task: nat, text: string) returns (r: Result<seq<Exercise>, Position>)
    ensures r == ExtractTask(parse, task, text)
  {
    var ps := Split(SYNC, text).pieces;
    var exercises := [];
    for i := 0 to |ps|
      invariant ExtractPieces(parse, task, ps[..i]) == Ok(exercises)
    {
      assert ps[..i + 1][..i] == ps[..i];
      var parsed := parse(ps[i].body);
      if parsed.Err? {
        ErrorStays(parse, task, ps, i + 1);
        return Err(Position(task, i + 1, parsed.error));
      }
      exercises := exercises + [Exercise(ExerciseId(task, i + 1), parsed.value)];
    }
    assert ps[..|ps|] == ps;
    r := Ok(exercises);
  }

  lemma {:induction false} ErrorStays(parse: Parser, task: nat, ps: seq<Piece>, n: nat)
    requires n <= |ps| && ExtractPieces(parse, task, ps[..n]).Err?
    ensures ExtractPieces(parse, task, ps) == ExtractPieces(parse, task, ps[..n])
  {
    if n == |ps| {
      assert ps[..n] == ps;
    } else {
      assert ps[..|ps| - 1][..n] == ps[..n];
      ErrorStays(parse, task, ps[..|ps| - 1], n);
    }
  }

  method ExtractExercises(parse: Parser, content: seq<string>) returns (r: Result<seq<Exercise>, Position>)
    ensures r == Extract(parse, content)
  {
    var exercises := [];
    for i := 0 to |content|
      invariant Extract(parse, content[..i]) == Ok(exercises)
    {
      assert content[..i + 1][..i] == content[..i];
      var more := ExtractTaskExercises(parse, i + 1, content[i]);
      if more.Err? {
        TaskErrorStays(parse, content, i + 1);
        return more;
      }
      exercises := exercises + more.value;
    }
    assert content[..|content|] == content;
    r := Ok(exercises);
  }

  lemma {:induction false} TaskErrorStays(parse: Parser, content: seq<string>, n: nat)
    requires n <= |content| && Extract(parse, content[..n]).Err?
    ensures Extract(parse, content) == Extract(parse, content[..n])
  {
    if n == |content| {
      assert content[..n] == content;
    } else {
      assert content[..|content| - 1][..n] == content[..n];
      TaskErrorStays(parse, content[..|content| - 1], n);
    }
  }

  /** The body of a placeholder block. */
  function PlaceholderBody(id: string, description: string): string {
    "id: " + id + "\ndescription: " + description
  }

  /** A block with its body replaced. */
  function Placeholder(p: Piece, e: Exercise): Piece {
    Piece(p.pre, PlaceholderBody(e.id, e.fields.description))
  }

  /** The blocks with their bodies replaced, `es` being their exercises. */
  function Placeholders(ps: seq<Piece>, es: seq<Exercise>): (r: seq<Piece>)
    requires |ps| == |es|
    ensures |r| == |ps| && forall i :: 0 <= i < |ps| ==> r[i] == Placeholder(ps[i], es[i])
  {
    if ps == [] then []
    else Placeholders(ps[..|ps| - 1], es[..|es| - 1]) + [Placeholder(ps[|ps| - 1], es[|es| - 1])]
  }

  lemma {:induction false} ExtractCounts(parse: Parser, task: nat, ps: seq<Piece>)
    requires ExtractPieces(parse, task, ps).Ok?
    ensures var es := ExtractPieces(parse, task, ps).value;
            && |es| == |ps|
            && forall i :: 0 <= i < |ps| ==>
                 parse(ps[i].body) == Ok(es[i].fields) && es[i].id == ExerciseId(task, i + 1)
  {
    if ps != [] {
      ExtractCounts(parse, task, ps[..|ps| - 1]);
    }
  }

  /** A task's text with every block replaced by its placeholder. */
  function Rewritten(parse: Parser, task: nat, text: string): string
    requires ExtractTask(parse, task, text).Ok?
  {
    var d := Split(SYNC, text);
    ExtractCounts(parse, task, d.pieces);
    Assemble(SYNC, Doc(Placeholders(d.pieces, ExtractTask(parse, task, text).value), d.tail))
  }

  function Heads(f: Fence, ps: seq<Piece>): string {
    if ps == [] then "" else Heads(f, ps[..|ps| - 1]) + Print(f, ps[|ps| - 1], "")
  }

  lemma {:induction false} AssembleHeads(f: Fence, ps: seq<Piece>, qs: seq<Piece>, tail: string)
    ensures Assemble(f, Doc(ps + qs, tail)) == Heads(f, ps) + Assemble(f, Doc(qs, tail))
    decreases |ps|
  {
    if ps == [] {
      assert ps + qs == qs;
    } else {
      var init, p := ps[..|ps| - 1], ps[|ps| - 1];
      assert ps + qs == init + ([p] + qs);
      AssembleHeads(f, init, [p] + qs, tail);
      AssembleOne(f, p, Doc(qs, tail));
      PrintEmpty(f, p, Assemble(f, Doc(qs, tail)));
    }
  }

  lemma PrintEmpty(f: Fence, p: Piece, rest: string)
    ensures Print(f, p, "") + rest == Print(f, p, rest)
  {
    assert f.close + "" == f.close;
    assert p.pre + (f.open + (p.body + f.close)) + rest == p.pre + (f.open + (p.body + f.close) + rest);
    assert f.open + (p.body + f.close) + rest == f.open + (p.body + f.close + rest);
    assert p.body + f.close + rest == p.body + (f.close + rest);
  }

  lemma PlaceholdersSnoc(ps: seq<Piece>, n: nat, es: seq<Exercise>, e: Exercise)
    requires n < |ps| && |es| == n
    ensures Placeholders(ps[..n + 1], es + [e]) == Placeholders(ps[..n], es) + [Placeholder(ps[n], e)]
  {
    assert ps[..n + 1][..n] == ps[..n];
  }

  lemma HeadsSnoc(f: Fence, ps: seq<Piece>, p: Piece)
    ensures Heads(f, ps + [p]) == Heads(f, ps) + Print(f, p, "")
  {
    assert (ps + [p])[..|ps|] == ps;
  }

  lemma ExtractSnoc(parse: Parser, task: nat, ps: seq<Piece>, n: nat)
    requires n < |ps| && ExtractPieces(parse, task, ps[..n]).Ok?
    ensures ExtractPieces(parse, task, ps[..n + 1]) ==
            match parse(ps[n].body)
            case Err(e) => Err(Position(task, n + 1, e))
            case Ok(f) => Ok(ExtractPieces(parse, task, ps[..n]).value + [Exercise(ExerciseId(task, n + 1), f)])
  {
    assert ps[..n + 1][..n] == ps[..n];
  }

  /** The substitution: its callback numbers the blocks with a counter of its own. */
  method RewriteTask(parse: Parser, task: nat, text: string) returns (r: Option<string>)
    ensures r.None? <==> ExtractTask(parse, task, text).Err?
    ensures r.Some? ==> r.value == Rewritten(parse, task, text)
  {
    var d := Split(SYNC, text);
    var ps := d.pieces;
    var out, counter := "", 0;
    ghost var es: seq<Exercise> := [];
    while counter < |ps|
      invariant counter <= |ps| && |es| == counter
      invariant ExtractPieces(parse, task, ps[..counter]) == Ok(es)
      invariant out == Heads(SYNC, Placeholders(ps[..counter], es))
    {
      ExtractSnoc(parse, task, ps, counter);
      var parsed := parse(ps[counter].body);
      counter := counter + 1;
      if parsed.Err? {
        ErrorStays(parse, task, ps, counter);
        return None;
      }
      var e := Exercise(ExerciseId(task, counter), parsed.value);
      PlaceholdersSnoc(ps, counter - 1, es, e);
      HeadsSnoc(SYNC, Placeholders(ps[..counter - 1], es), Placeholder(ps[counter - 1], e));
      out := out + Print(SYNC, Placeholder(ps[counter - 1], e), "");
      es := es + [e];
    }
    assert ps[..|ps|] == ps;
    AssembleAll(SYNC, Placeholders(ps, es), d.tail);
    r := Some(out + d.tail);
  }

  /** All tasks rewritten. */
  function RewrittenAll(parse: Parser, content: seq<string>): seq<string>
    requires Extract(parse, content).Ok?
  {
    if content == [] then []
    else RewrittenAll(parse, content[..|content| - 1]) + [Rewritten(parse, |content|, content[|content| - 1])]
  }

  /** A block that does not parse stops the rewriting as it stops the extraction. */
  method RewriteContent(parse: Parser, content: seq<string>) returns (r: Option<seq<string>>)
    ensures r.None? <==> Extract(parse, content).Err?
    ensures r.Some? ==> r.value == RewrittenAll(parse, content)
  {
    var rewritten: seq<string> := [];
    for i := 0 to |content|
      invariant Extract(parse, content[..i]).Ok? && rewritten == RewrittenAll(parse, content[..i])
    {
      assert content[..i + 1][..i] == content[..i];
      var text := RewriteTask(parse, i + 1, content[i]);
      if text.None? {
        TaskErrorStays(parse, content, i + 1);
        return None;
      }
      rewritten := rewritten + [text.value];
    }
    assert content[..|content|] == content;
    r := Some(rewritten);
  }

  lemma AssembleAll(f: Fence, ps: seq<Piece>, tail: string)
    ensures Assemble(f, Doc(ps, tail)) == Heads(f, ps) + tail
  {
    AssembleHeads(f, ps, [], tail);
    assert ps + [] == ps;
  }

  lemma FenceIsValid()
    ensures SYNC.Valid() && READER.Valid()
  {
    assert OPENER[|OPENER| - 1] == '\n';
    assert forall i :: 0 <= i < |OPENER| - 1 ==> OPENER[..|OPENER| - 1][i] == OPENER[i] != '\n';
  }
}
