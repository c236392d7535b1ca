/** The frontend's reader of exercise placeholders, and the round trip through it. */
module Reader {
  import opened Options
  import opened Strings
  import opened Fences
  import opened Exercises

  const ID_TAG := "id:"

  datatype Shown = Shown(id: string, description: string)

  // ---- Reading one block ----

  /** What follows a field's label, as the pattern takes it: white space is skipped, even across
      lines; if nothing else is left it gives back its last blank. */
  function FieldValue(r: string): Option<string> {
    var w := SpaceRun(r);
    if w < |r| then Some(Trim(r[w..][..LineLength(r[w..])]))
    else if exists i :: 0 <= i < |r| && r[i] != '\n' then Some("")
    else None
  }

  /** The first line that starts with `tag` and has a value. */
  function ReadField(s: string, tag: string, lineStart: bool): Option<string> {
    if lineStart && tag <= s && FieldValue(s[|tag|..]).Some? then FieldValue(s[|tag|..])
    else if s == "" then None
    else ReadField(s[1..], tag, s[0] == '\n')
  }

  function ReadBlock(body: string): Option<Shown> {
    var id := ReadField(body, ID_TAG, true);
    var description := ReadField(body, DESCRIPTION, true);
    if id.None? || description.None? then None else Some(Shown(id.value, description.value))
  }

  /** What one block contributes: nothing unless it has both fields. */
  function ReadOne(read: string -> Option<Shown>, body: string): seq<Shown> {
    match read(body) case None => [] case Some(b) => [b]
  }

  function ReadPieces(read: string -> Option<Shown>, ps: seq<Piece>): seq<Shown> {
    if ps == [] then [] else ReadOne(read, ps[0].body) + ReadPieces(read, ps[1..])
  }

  function ReadText(read: string -> Option<Shown>, f: Fence, text: string): seq<Shown>
    requires f.close != []
  {
    ReadPieces(read, Split(f, text).pieces)
  }

  function ReadBlocks(markdown: string): seq<Shown> {
    ReadText(ReadBlock, READER, markdown)
  }

  lemma ReadPiecesCons(read: string -> Option<Shown>, p: Piece, ps: seq<Piece>)
    ensures ReadPieces(read, [p] + ps) == ReadOne(read, p.body) + ReadPieces(read, ps)
  {
    assert ([p] + ps)[1..] == ps;
  }

  lemma ReadFirst(read: string -> Option<Shown>, f: Fence, text: string, m: Match)
    requires f.close != [] && m == FirstBlock(f, text)
    ensures ReadText(read, f, text) ==
            match m case NoMatch => [] case Block(p, rest) => ReadOne(read, p.body) + ReadText(read, f, rest)
  {
    if m.Block? {
      FirstBlockShorter(f, text);
      ReadPiecesCons(read, m.piece, Split(f, m.rest).pieces);
    }
  }

  lemma ReadMore(read: string -> Option<Shown>, f: Fence, text: string, m: Match, blocks: seq<Shown>)
    requires f.close != [] && m == FirstBlock(f, text)
    ensures m.NoMatch? ==> blocks + ReadText(read, f, text) == blocks
    ensures m.Block? ==> blocks + ReadText(read, f, text) ==
                         blocks + ReadOne(read, m.piece.body) + ReadText(read, f, m.rest)
  {
    ReadFirst(read, f, text, m);
  }

  /** One turn of the loop: the next match, if any, is read and the search goes on behind it. */
  method NextBlock(read: string -> Option<Shown>, f: Fence, text: string, seen: seq<Shown>)
    returns (done: bool, rest: string, blocks: seq<Shown>)
    requires f.close != []
    ensures done ==> blocks == seen + ReadText(read, f, text)
    ensures !done ==> |rest| < |text| && blocks + ReadText(read, f, rest) == seen + ReadText(read, f, text)
  {
    var m := FirstBlock(f, text);
    ReadMore(read, f, text, m, seen);
    FirstBlockShorter(f, text);
    if m.NoMatch? {
      return true, text, seen;
    }
    var block := read(m.piece.body);
    done, rest, blocks := false, m.rest, if block.None? then seen else seen + [block.value];
  }

  method CollectBlocks(read: string -> Option<Shown>, f: Fence, markdown: string) returns (blocks: seq<Shown>)
    requires f.close != []
    ensures blocks == ReadText(read, f, markdown)
  {
    var done, rest;
    done, rest, blocks := NextBlock(read, f, markdown, []);
    while !done
      invariant blocks + (if done then [] else ReadText(read, f, rest)) == ReadText(read, f, markdown)
      decreases !done, |rest|
    {
      done, rest, blocks := NextBlock(read, f, rest, blocks);
    }
  }

  method ParseExerciseBlocks(markdown: string) returns (blocks: seq<Shown>)
    ensures blocks == ReadBlocks(markdown)
  {
    blocks := CollectBlocks(ReadBlock, READER, markdown);
  }

  // ---- Reading a placeholder ----

  predicate IsLine(s: string) {
    '\n' !in s
  }

  lemma ValueIs(v: string, rest: string)
    requires v != "" && IsTrimmed(v) && IsLine(v)
    requires rest == "" || rest[0] == '\n'
    ensures FieldValue(" " + v + rest) == Some(v)
  {
    var r := " " + v + rest;
    assert r[0] == ' ' && r[1] == v[0];
    assert SpaceRun(r) == 1;
    assert r[1..] == v + rest;
    LineLengthIs(v, rest);
    assert r[1..][..|v|] == v;
    TrimIsTrimmed(v);
  }

  lemma LineLengthIs(v: string, rest: string)
    requires IsLine(v) && (rest == "" || rest[0] == '\n')
    ensures LineLength(v + rest) == |v|
  {
    var s := v + rest;
    var n := LineLength(s);
    assert forall i :: 0 <= i < |v| ==> s[i] == v[i];
    if rest != "" {
      assert s[|v|] == rest[0];
    }
  }

  lemma ReadAtTag(tag: string, v: string, rest: string)
    requires v != "" && IsTrimmed(v) && IsLine(v)
    requires rest == "" || rest[0] == '\n'
    ensures ReadField(tag + (" " + v + rest), tag, true) == Some(v)
  {
    ValueIs(v, rest);
    var s := tag + (" " + v + rest);
    assert s[|tag|..] == " " + v + rest;
  }

  lemma {:induction false} SkipRest(line: string, rest: string, tag: string)
    requires IsLine(line)
    ensures ReadField(line + "\n" + rest, tag, false) == ReadField(rest, tag, true)
    decreases |line|
  {
    var s := line + "\n" + rest;
    if line == "" {
      assert s[0] == '\n' && s[1..] == rest;
    } else {
      assert s[0] == line[0] && s[1..] == line[1..] + "\n" + rest;
      SkipRest(line[1..], rest, tag);
    }
  }

  lemma SkipLine(line: string, rest: string, tag: string)
    requires IsLine(line) && line != "" && tag != "" && line[0] != tag[0]
    ensures ReadField(line + "\n" + rest, tag, true) == ReadField(rest, tag, true)
  {
    var s := line + "\n" + rest;
    assert s[0] == line[0] && s[1..] == line[1..] + "\n" + rest;
    SkipRest(line[1..], rest, tag);
  }

  predicate GoodId(id: string) {
    id != "" && IsTrimmed(id) && IsLine(id) && '`' !in id
  }

  /** The reader sees the id in a placeholder's body, whatever the description line holds. */
  lemma ReadsId(id: string, x: string)
    requires GoodId(id)
    ensures ReadField(PlaceholderBody(id, x), ID_TAG, true) == Some(id)
  {
    var rest := "\ndescription: " + x;
    assert PlaceholderBody(id, x) == ID_TAG + (" " + id + rest);
    ReadAtTag(ID_TAG, id, rest);
  }

  lemma DescriptionLine(id: string, x: string)
    requires GoodId(id)
    ensures ReadField(PlaceholderBody(id, x), DESCRIPTION, true) ==
            ReadField("description: " + x, DESCRIPTION, true)
  {
    var line := "id: " + id;
    assert PlaceholderBody(id, x) == line + "\n" + ("description: " + x);
    assert line[0] == 'i';
    SkipLine(line, "description: " + x, DESCRIPTION);
  }

  lemma DescriptionText(x: string)
    ensures "description: " + x == DESCRIPTION + (" " + x)
  {
  }

  lemma ReadsDescription(id: string, d: string)
    requires GoodId(id) && d != "" && IsTrimmed(d) && IsLine(d)
    ensures ReadField(PlaceholderBody(id, d + "\n"), DESCRIPTION, true) == Some(d)
  {
    DescriptionLine(id, d + "\n");
    DescriptionText(d + "\n");
    assert " " + (d + "\n") == " " + d + "\n";
    ReadAtTag(DESCRIPTION, d, "\n");
  }

  lemma PlaceholderBreak(id: string, d: string)
    ensures PlaceholderBody(id, d) + "\n" == PlaceholderBody(id, d + "\n")
  {
  }

  lemma BlockIs(body: string, id: string, d: string)
    requires ReadField(body, ID_TAG, true) == Some(id) && ReadField(body, DESCRIPTION, true) == Some(d)
    ensures ReadBlock(body) == Some(Shown(id, d))
  {
  }

  /** A whole placeholder, the body ending with the break before the closing fence. */
  lemma ReadsPlaceholder(id: string, d: string)
    requires GoodId(id) && d != "" && IsTrimmed(d) && IsLine(d)
    ensures ReadBlock(PlaceholderBody(id, d) + "\n") == Some(Shown(id, d))
  {
    PlaceholderBreak(id, d);
    ReadsId(id, d + "\n");
    ReadsDescription(id, d);
    BlockIs(PlaceholderBody(id, d + "\n"), id, d);
  }

  lemma CutDescription(id: string, x: string)
    requires GoodId(id) && FieldValue(" " + x).Some?
    ensures ReadField(PlaceholderBody(id, x), DESCRIPTION, true) == FieldValue(" " + x)
  {
    DescriptionLine(id, x);
    var s := "description: " + x;
    assert s == DESCRIPTION + (" " + x);
    assert s[|DESCRIPTION|..] == " " + x;
  }

  /** A placeholder cut off inside its description, before the line ends. */
  lemma ReadsCutPlaceholder(id: string, x: string, d: string)
    requires GoodId(id) && IsTrimmed(d) && IsLine(d) && x <= d && x != d
    ensures ReadBlock(PlaceholderBody(id, x)).Some?
    ensures ReadBlock(PlaceholderBody(id, x)).value.id == id
    ensures ReadBlock(PlaceholderBody(id, x)).value.description != d
  {
    ReadsId(id, x);
    CutValue(x, d);
    CutDescription(id, x);
    BlockIs(PlaceholderBody(id, x), id, FieldValue(" " + x).value);
  }

  lemma CutValue(x: string, d: string)
    requires IsTrimmed(d) && IsLine(d) && x <= d && x != d
    ensures FieldValue(" " + x).Some? && FieldValue(" " + x).value != d
  {
    var r := " " + x;
    if x == "" {
      assert r[0] == ' ' && SpaceRun(r) == 1;
    } else {
      assert r[0] == ' ' && r[1] == x[0] == d[0];
      assert SpaceRun(r) == 1;
      assert r[1..] == x;
      LineLengthIs(x, "");
      assert x + "" == x && x[..|x|] == x;
      TrimIsTrimmed(x);
    }
  }
}
