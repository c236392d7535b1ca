/** The ids of a lab's exercises, as printed: task number, dot, number within the task. */
module Ids {
  import opened Strings
  import opened Fences
  import opened Exercises
  import opened RoundTrip

  /** `s` is the decimal numeral of `n`, without leading zeros. */
  predicate IsNumeral(s: string, n: nat) {
    s != "" && IsDigits(s) && Value(s) == n && (|s| > 1 ==> s[0] != '0')
  }

  /** Two numerals with a dot between them. */
  ghost predicate Names(id: string, task: nat, exercise: nat) {
    exists a, b :: IsNumeral(a, task) && IsNumeral(b, exercise) && id == a + "." + b
  }

  lemma {:induction false} DecIsNumeral(n: nat)
    ensures IsNumeral(Dec(n), n)
    ensures n > 0 ==> Dec(n)[0] != '0'
  {
    DecValue(n);
    if n >= 10 {
      DecIsNumeral(n / 10);
      assert Dec(n)[0] == Dec(n / 10)[0];
    }
  }

  /** Numerals are read as usual. */
  lemma NumeralsRead()
    ensures IsNumeral("0", 0) && IsNumeral("7", 7) && IsNumeral("12", 12) && IsNumeral("305", 305)
  {
    assert "12"[..1] == "1" && "305"[..2] == "30" && "30"[..1] == "3";
    assert "0"[..0] == "" && "7"[..0] == "" && "1"[..0] == "" && "3"[..0] == "";
    assert Value("1") == 1 && Value("3") == 3 && Value("30") == 30;
  }

  lemma IdNames(task: nat, exercise: nat)
    ensures Names(ExerciseId(task, exercise), task, exercise)
  {
    DecIsNumeral(task);
    DecIsNumeral(exercise);
  }

  /** Blocks in all texts. */
  function Blocks(content: seq<string>): nat {
    if content == [] then 0 else Blocks(content[..|content| - 1]) + |Split(SYNC, content[|content| - 1]).pieces|
  }

  lemma LastText(content: seq<string>) returns (init: seq<string>, text: string)
    requires content != []
    ensures content == init + [text]
  {
    init, text := content[..|content| - 1], content[|content| - 1];
  }

  /** What one more text adds. */
  lemma ExtractMore(parse: Parser, content: seq<string>, init: seq<string>, text: string)
    requires content == init + [text] && Extract(parse, content).Ok?
    ensures Extract(parse, init).Ok? && ExtractTask(parse, |content|, text).Ok?
    ensures Extract(parse, content).value == Extract(parse, init).value + ExtractTask(parse, |content|, text).value
    ensures Blocks(content) == Blocks(init) + |Split(SYNC, text).pieces|
  {
    assert content[..|content| - 1] == init;
  }

  lemma {:induction false} LabCounts(parse: Parser, content: seq<string>)
    requires Extract(parse, content).Ok?
    ensures |Extract(parse, content).value| == Blocks(content)
    decreases |content|
  {
    if content != [] {
      var init, text := LastText(content);
      ExtractMore(parse, content, init, text);
      LabCounts(parse, init);
      ExtractCounts(parse, |content|, Split(SYNC, text).pieces);
    }
  }

  /** The exercise at place `at` is that of block `k` in a text. */
  ghost predicate IsExercise(parse: Parser, es: seq<Exercise>, at: int, text: string, t: nat, k: nat) {
    && 0 <= at < |es|
    && 1 <= k <= |Split(SYNC, text).pieces|
    && es[at].id == ExerciseId(t, k)
    && parse(Split(SYNC, text).pieces[k - 1].body) == Ok(es[at].fields)
  }

  lemma StillExercise(parse: Parser, es: seq<Exercise>, all: seq<Exercise>, at: int, text: string, t: nat, k: nat)
    requires IsExercise(parse, es, at, text, t, k) && es <= all
    ensures IsExercise(parse, all, at, text, t, k)
  {
    assert all[at] == es[at];
  }

  lemma NewExercise(parse: Parser, es: seq<Exercise>, all: seq<Exercise>, at: int, text: string, t: nat, k: nat)
    requires ExtractTask(parse, t, text).Ok? && 1 <= k <= |Split(SYNC, text).pieces|
    requires all == es + ExtractTask(parse, t, text).value && at == |es| + k - 1
    ensures IsExercise(parse, all, at, text, t, k)
  {
    ExtractCounts(parse, t, Split(SYNC, text).pieces);
    assert all[at] == ExtractTask(parse, t, text).value[k - 1];
  }

  lemma {:induction false} ExerciseAt(parse: Parser, content: seq<string>, at: int, t: nat, k: nat, before: seq<string>, text: string)
    requires Extract(parse, content).Ok? && at == Blocks(before) + k - 1
    requires 1 <= t <= |content| && before == content[..t - 1] && text == content[t - 1]
    requires 1 <= k <= |Split(SYNC, text).pieces|
    ensures IsExercise(parse, Extract(parse, content).value, at, text, t, k)
    decreases |content|
  {
    var init, last := LastText(content);
    ExtractMore(parse, content, init, last);
    var es, all := Extract(parse, init).value, Extract(parse, content).value;
    if t < |content| {
      assert before == init[..t - 1] && text == init[t - 1];
      ExerciseAt(parse, init, at, t, k, before, text);
      StillExercise(parse, es, all, at, text, t, k);
    } else {
      assert before == init && text == last;
      LabCounts(parse, init);
      NewExercise(parse, es, all, at, text, t, k);
    }
  }

  lemma NamedExercise(parse: Parser, es: seq<Exercise>, at: int, text: string, t: nat, k: nat)
    requires IsExercise(parse, es, at, text, t, k)
    ensures 0 <= at < |es| && Names(es[at].id, t, k)
  {
    IdNames(t, k);
  }

  /** Over a whole lab, exercises stand in the order of texts and blocks, and the one of block `k` in
      text `t`, both from one, has the id "t.k" and that block's fields. */
  lemma LabExercise(parse: Parser, content: seq<string>, t: nat, k: nat) returns (at: int)
    requires Extract(parse, content).Ok?
    requires 1 <= t <= |content| && 1 <= k <= |Split(SYNC, content[t - 1]).pieces|
    ensures |Extract(parse, content).value| == Blocks(content)
    ensures at == Blocks(content[..t - 1]) + k - 1 && 0 <= at < |Extract(parse, content).value|
    ensures Names(Extract(parse, content).value[at].id, t, k)
    ensures parse(Split(SYNC, content[t - 1]).pieces[k - 1].body) == Ok(Extract(parse, content).value[at].fields)
  {
    LabCounts(parse, content);
    at := Blocks(content[..t - 1]) + k - 1;
    ExerciseAt(parse, content, at, t, k, content[..t - 1], content[t - 1]);
    NamedExercise(parse, Extract(parse, content).value, at, content[t - 1], t, k);
  }

  /** What is published in place of a block: two labelled lines. */
  ghost predicate Published(body: string, task: nat, exercise: nat, description: string) {
    exists id :: Names(id, task, exercise) && body == "id: " + id + "\ndescription: " + description
  }

  /** Block `k` of a text as it stands in the rewritten text. */
  ghost predicate IsPublished(rewritten: string, text: string, t: nat, k: nat) {
    var ps, qs := Split(SYNC, text).pieces, Split(SYNC, rewritten).pieces;
    && |qs| == |ps|
    && 1 <= k <= |ps|
    && ParseBody(ps[k - 1].body).Ok?
    && Published(qs[k - 1].body, t, k, ParseBody(ps[k - 1].body).value.description)
  }

  lemma TaskPublished(task: nat, text: string, k: nat)
    requires ExtractTask(ParseBody, task, text).Ok? && 1 <= k <= |Split(SYNC, text).pieces|
    ensures IsPublished(Rewritten(ParseBody, task, text), text, task, k)
  {
    ParseBodyIsGood();
    RewritingKeepsText(ParseBody, task, text);
    ExtractCounts(ParseBody, task, Split(SYNC, text).pieces);
    IdNames(task, k);
  }

  lemma RewrittenMore(content: seq<string>, init: seq<string>, text: string)
    requires content == init + [text] && Extract(ParseBody, content).Ok?
    ensures Extract(ParseBody, init).Ok? && ExtractTask(ParseBody, |content|, text).Ok?
    ensures RewrittenAll(ParseBody, content) == RewrittenAll(ParseBody, init) + [Rewritten(ParseBody, |content|, text)]
  {
    assert content[..|content| - 1] == init;
  }

  lemma {:induction false} RewrittenCount(content: seq<string>)
    requires Extract(ParseBody, content).Ok?
    ensures |RewrittenAll(ParseBody, content)| == |content|
    decreases |content|
  {
    if content != [] {
      var init, text := LastText(content);
      RewrittenMore(content, init, text);
      RewrittenCount(init);
    }
  }

  /** The rewritten texts publish, for the same block, the same numbers and the block's description. */
  lemma {:induction false} LabPublished(content: seq<string>, t: nat, k: nat)
    requires Extract(ParseBody, content).Ok?
    requires 1 <= t <= |content| && 1 <= k <= |Split(SYNC, content[t - 1]).pieces|
    ensures |RewrittenAll(ParseBody, content)| == |content|
    ensures IsPublished(RewrittenAll(ParseBody, content)[t - 1], content[t - 1], t, k)
    decreases |content|
  {
    var init, text := LastText(content);
    RewrittenMore(content, init, text);
    RewrittenCount(init);
    if t < |content| {
      LabPublished(init, t, k);
    } else {
      TaskPublished(t, text, k);
    }
  }
}
