/** Exercise blocks as authors write them, and what the parser makes of them. */
module Authoring {
  import opened Options
  import opened Strings
  import opened Exercises
  import opened Reader

  /** A value that fits on a labelled line. */
  predicate Plain(v: string) {
    v != "" && IsTrimmed(v) && IsLine(v)
  }

  /** Fields that can be written down: the template may hold anything but a final line break. */
  predicate Writable(f: Fields) {
    && Plain(f.description)
    && Plain(f.kind)
    && (f.asset.Some? ==> Plain(f.asset.value))
    && (f.template != "" ==> f.template[|f.template| - 1] != '\n')
  }

  function Labelled(tag: string, v: string): string {
    tag + (" " + v)
  }

  function FieldLines(f: Fields): seq<string> {
    [Labelled(DESCRIPTION, f.description), Labelled(TYPE, f.kind)] +
    match f.asset case None => [] case Some(a) => [Labelled(ASSET, a)]
  }

  function WrittenLines(f: Fields): seq<string> {
    FieldLines(f) + ([TEMPLATE] + Lines(f.template))
  }

  /** The body of a block. */
  function Written(f: Fields): string {
    JoinLines(WrittenLines(f))
  }

  // ---- Lines and joining ----

  predicate AllLines(lines: seq<string>) {
    forall i :: 0 <= i < |lines| ==> IsLine(lines[i])
  }

  lemma JoinCons(line: string, lines: seq<string>)
    requires lines != []
    ensures JoinLines([line] + lines) == line + ("\n" + JoinLines(lines))
  {
    assert ([line] + lines)[1..] == lines;
    assert line + "\n" + JoinLines(lines) == line + ("\n" + JoinLines(lines));
  }

  lemma LinesCons(line: string, rest: string)
    requires IsLine(line)
    ensures Lines(line + ("\n" + rest)) == [line] + Lines(rest)
  {
    var s := line + ("\n" + rest);
    LineLengthIs(line, "\n" + rest);
    assert s[..|line|] == line && s[|line| + 1..] == rest;
  }

  lemma OneLine(line: string)
    requires IsLine(line) && line != ""
    ensures Lines(line) == [line]
  {
    LineLengthIs(line, "");
    assert line + "" == line && line[..|line|] == line;
  }

  lemma {:induction false} LinesOfJoin(lines: seq<string>)
    requires lines != [] && AllLines(lines) && lines[|lines| - 1] != ""
    ensures Lines(JoinLines(lines)) == lines
  {
    if |lines| == 1 {
      OneLine(lines[0]);
    } else {
      assert lines == [lines[0]] + lines[1..];
      LinesOfJoin(lines[1..]);
      JoinCons(lines[0], lines[1..]);
      LinesCons(lines[0], JoinLines(lines[1..]));
    }
  }

  lemma JoinStep(line: string, rest: string)
    requires IsLine(line) && rest != ""
    requires JoinLines(Lines(rest)) == rest
    requires Lines(rest) != [] && Lines(rest)[|Lines(rest)| - 1] != ""
    ensures var s := line + ("\n" + rest);
            JoinLines(Lines(s)) == s && Lines(s) != [] && Lines(s)[|Lines(s)| - 1] != ""
  {
    LinesCons(line, rest);
    JoinCons(line, Lines(rest));
  }

  lemma CutAtBreak(s: string, n: nat)
    requires n < |s| && s[n] == '\n'
    ensures s == s[..n] + ("\n" + s[n + 1..])
  {
    assert s == s[..n] + ([s[n]] + s[n + 1..]);
  }

  lemma FirstLine(s: string) returns (line: string, rest: string)
    requires LineLength(s) < |s| && s[|s| - 1] != '\n'
    ensures s == line + ("\n" + rest) && IsLine(line)
    ensures rest != "" && rest[|rest| - 1] != '\n'
  {
    var n := LineLength(s);
    CutAtBreak(s, n);
    line, rest := s[..n], s[n + 1..];
  }

  lemma {:induction false} JoinOfLines(s: string)
    requires s != "" ==> s[|s| - 1] != '\n'
    ensures JoinLines(Lines(s)) == s
    ensures s != "" ==> Lines(s) != [] && Lines(s)[|Lines(s)| - 1] != ""
    decreases |s|
  {
    if s != "" {
      if LineLength(s) == |s| {
        OneLine(s);
      } else {
        var line, rest := FirstLine(s);
        JoinOfLines(rest);
        JoinStep(line, rest);
      }
    }
  }

  // ---- Parsing what was written ----

  lemma NoteSnoc(lines: seq<string>, line: string)
    ensures NoteAll(lines + [line]) == Note(NoteAll(lines), line)
  {
    assert (lines + [line])[..|lines|] == lines;
  }

  lemma LabelledIs(tag: string, v: string)
    requires Plain(v)
    ensures tag <= Labelled(tag, v) && Trim(Labelled(tag, v)[|tag|..]) == v
  {
    assert Labelled(tag, v)[|tag|..] == " " + v;
    TrimSpaced(v);
  }

  lemma LabelledLine(tag: string, v: string)
    requires IsLine(tag) && IsLine(v)
    ensures IsLine(Labelled(tag, v))
  {
  }

  lemma NoteDescription(s: Seen, v: string)
    requires Plain(v)
    ensures Note(s, Labelled(DESCRIPTION, v)) == s.(description := Some(v))
  {
    LabelledIs(DESCRIPTION, v);
    LabelsDiffer(Labelled(DESCRIPTION, v));
  }

  lemma NoteType(s: Seen, v: string)
    requires Plain(v)
    ensures Note(s, Labelled(TYPE, v)) == s.(kind := Some(v))
  {
    LabelledIs(TYPE, v);
    LabelsDiffer(Labelled(TYPE, v));
  }

  lemma NoteAsset(s: Seen, v: string)
    requires Plain(v)
    ensures Note(s, Labelled(ASSET, v)) == s.(asset := Some(v))
  {
    LabelledIs(ASSET, v);
    LabelsDiffer(Labelled(ASSET, v));
  }

  lemma NoteTwo(d: string, t: string, s: Seen)
    requires s == Note(Note(Seen(None, None, None), d), t)
    ensures NoteAll([d, t]) == s
  {
    NoteSnoc([], d);
    NoteSnoc([d], t);
    assert [] + [d] == [d] && [d] + [t] == [d, t];
  }

  lemma NoteThree(d: string, t: string, a: string, s: Seen)
    requires s == Note(Note(Note(Seen(None, None, None), d), t), a)
    ensures NoteAll([d, t, a]) == s
  {
    NoteTwo(d, t, Note(Note(Seen(None, None, None), d), t));
    NoteSnoc([d, t], a);
    assert [d, t] + [a] == [d, t, a];
  }

  lemma NoteFields(f: Fields)
    requires Writable(f)
    ensures NoteAll(FieldLines(f)) == Seen(Some(f.description), Some(f.kind), f.asset)
  {
    var d, t := Labelled(DESCRIPTION, f.description), Labelled(TYPE, f.kind);
    var one := Seen(Some(f.description), None, None);
    var two := Seen(Some(f.description), Some(f.kind), None);
    NoteDescription(Seen(None, None, None), f.description);
    NoteType(one, f.kind);
    match f.asset
    case None =>
      assert FieldLines(f) == [d, t];
      NoteTwo(d, t, two);
    case Some(v) =>
      var a := Labelled(ASSET, v);
      assert FieldLines(f) == [d, t, a];
      NoteAsset(two, v);
      NoteThree(d, t, a, two.(asset := Some(v)));
  }

  lemma NotTemplate(l: string, tag: string, v: string)
    requires l == Labelled(tag, v) && Plain(v) && (tag == DESCRIPTION || tag == TYPE || tag == ASSET)
    ensures !(TEMPLATE <= l)
  {
    LabelledIs(tag, v);
    LabelsDiffer(l);
  }

  lemma NoTemplateYet(f: Fields)
    requires Writable(f)
    ensures forall i :: 0 <= i < |FieldLines(f)| ==> !(TEMPLATE <= FieldLines(f)[i])
  {
    forall i | 0 <= i < |FieldLines(f)|
      ensures !(TEMPLATE <= FieldLines(f)[i])
    {
      if i == 0 {
        NotTemplate(FieldLines(f)[i], DESCRIPTION, f.description);
      } else if i == 1 {
        NotTemplate(FieldLines(f)[i], TYPE, f.kind);
      } else {
        NotTemplate(FieldLines(f)[i], ASSET, f.asset.value);
      }
    }
  }

  lemma DropNothing(s: string)
    requires s != "" ==> s[|s| - 1] != '\n'
    ensures DropBreaks(s) == s
  {
  }

  lemma FieldsAreLines(f: Fields)
    requires Writable(f)
    ensures AllLines(FieldLines(f))
  {
    LabelledLine(DESCRIPTION, f.description);
    LabelledLine(TYPE, f.kind);
    if f.asset.Some? {
      LabelledLine(ASSET, f.asset.value);
    }
  }

  lemma LinesAreLines(s: string)
    ensures AllLines(Lines(s))
  {
    forall i | 0 <= i < |Lines(s)|
      ensures IsLine(Lines(s)[i])
    {
      assert Lines(s)[i] in Lines(s);
    }
  }

  /** Lines before and after the line that starts the template. */
  lemma AroundTemplate(before: seq<string>, after: seq<string>)
    requires AllLines(before) && AllLines(after)
    requires after != [] ==> after[|after| - 1] != ""
    ensures var lines := before + ([TEMPLATE] + after);
            AllLines(lines) && lines[|lines| - 1] != ""
  {
    assert IsLine(TEMPLATE);
    var lines := before + ([TEMPLATE] + after);
    forall i | 0 <= i < |lines|
      ensures IsLine(lines[i])
    {
      assert lines[i] == if i < |before| then before[i] else if i == |before| then TEMPLATE else after[i - |before| - 1];
    }
  }

  lemma WrittenIsLines(f: Fields)
    requires Writable(f)
    ensures Lines(Written(f)) == WrittenLines(f)
  {
    JoinOfLines(f.template);
    FieldsAreLines(f);
    LinesAreLines(f.template);
    AroundTemplate(FieldLines(f), Lines(f.template));
    LinesOfJoin(WrittenLines(f));
  }

  lemma LastIsNoted(lines: seq<string>, s: Seen)
    requires NoteAll(lines) == s
    ensures LastField(lines, DESCRIPTION) == s.description
    ensures LastField(lines, TYPE) == s.kind
    ensures LastField(lines, ASSET) == s.asset
  {
    NoteAllIsLast(lines);
  }

  lemma CutAtTemplate(before: seq<string>, after: seq<string>)
    requires forall i :: 0 <= i < |before| ==> !(TEMPLATE <= before[i])
    ensures var lines := before + ([TEMPLATE] + after);
            && TemplateLine(lines) == |before| < |lines|
            && lines[..|before|] == before
            && lines[|before| + 1..] == after
  {
    TemplateLineIs(before + ([TEMPLATE] + after), |before|);
  }

  /** Whatever fields an author writes down, the parser returns them: values trimmed, an asset if
      there is one, the template to the letter. */
  lemma ParseWritten(f: Fields)
    requires Writable(f)
    ensures ParseBody(Written(f)) == Ok(f)
  {
    WrittenIsLines(f);
    NoTemplateYet(f);
    CutAtTemplate(FieldLines(f), Lines(f.template));
    NoteFields(f);
    LastIsNoted(FieldLines(f), Seen(Some(f.description), Some(f.kind), f.asset));
    JoinOfLines(f.template);
    DropNothing(f.template);
  }
}
