/** Reading the frames of a server-sent event stream, line by line. */
module Sse {
  import opened Options
  import opened Strings

  const EVENT := "event:"
  const DATA := "data:"

  datatype Message = Message(event: string, data: string)

  // ---- One frame ----

  /** What has been seen of a frame. */
  datatype Partial = Partial(event: string, data: seq<string>) {
    predicate Empty() {
      event == "" && data == []
    }

    function Finished(): Option<Message> {
      if Empty() then None else Some(Message(event, JoinLines(data)))
    }
  }

  const NOTHING := Partial("", [])

  /** White space in the sense of Go's `unicode.IsSpace`. */
  predicate IsUnicodeSpace(c: char) {
    || '\t' <= c <= '\r' || c == ' ' || c == '\U{85}' || c == '\U{a0}'
    || c == '\U{1680}' || '\U{2000}' <= c <= '\U{200a}' || c == '\U{2028}' || c == '\U{2029}'
    || c == '\U{202f}' || c == '\U{205f}' || c == '\U{3000}'
  }

  function TrimLeft(s: string): (r: string)
    ensures r != "" ==> !IsUnicodeSpace(r[0])
    ensures |r| <= |s| && s[|s| - |r|..] == r
    ensures forall i :: 0 <= i < |s| - |r| ==> IsUnicodeSpace(s[i])
  {
    if s != "" && IsUnicodeSpace(s[0]) then TrimLeft(s[1..]) else s
  }

  function TrimRight(s: string): (r: string)
    ensures r != "" ==> !IsUnicodeSpace(r[|r| - 1])
    ensures r <= s
    ensures forall i :: |r| <= i < |s| ==> IsUnicodeSpace(s[i])
  {
    if s != "" && IsUnicodeSpace(s[|s| - 1]) then TrimRight(s[..|s| - 1]) else s
  }

  function TrimSpace(s: string): string {
    TrimRight(TrimLeft(s))
  }

  predicate IsBare(s: string) {
    s != "" ==> !IsUnicodeSpace(s[0]) && !IsUnicodeSpace(s[|s| - 1])
  }

  function DropSpace(s: string): string {
    if s != "" && s[0] == ' ' then s[1..] else s
  }

  function See(p: Partial, line: string): Partial {
    if EVENT <= line then p.(event := TrimSpace(line[|EVENT|..]))
    else if DATA <= line then p.(data := p.data + [DropSpace(line[|DATA|..])])
    else p
  }

  /** What a run of lines without a blank one adds. */
  function SeeAll(p: Partial, lines: seq<string>): Partial
    decreases |lines|
  {
    if lines == [] then p else SeeAll(See(p, lines[0]), lines[1..])
  }

  /** The next frame and the lines left; blank lines before a frame are passed over, and the end of
      the stream ends a frame. */
  function ReadFrom(lines: seq<string>, p: Partial): (r: (Option<Message>, seq<string>))
    ensures |r.1| <= |lines|
    ensures r.0.Some? && p.Empty() ==> |r.1| < |lines|
    ensures r.0.None? ==> r.1 == []
  {
    if lines == [] then (p.Finished(), [])
    else if lines[0] != "" then ReadFrom(lines[1..], See(p, lines[0]))
    else if p.Empty() then ReadFrom(lines[1..], p)
    else (p.Finished(), lines[1..])
  }

  /** All frames read until the reader reports the end. */
  function ReadAll(lines: seq<string>): seq<Message>
    decreases |lines|
  {
    var (m, rest) := ReadFrom(lines, NOTHING);
    if m.None? then [] else [m.value] + ReadAll(rest)
  }

  /** A line scanner. */
  class Scanner {
    var rest: seq<string>

    constructor (lines: seq<string>)
      ensures rest == lines
    {
      rest := lines;
    }

    method Scan() returns (ok: bool, line: string)
      modifies this
      ensures ok <==> old(rest) != []
      ensures ok ==> line == old(rest)[0] && rest == old(rest)[1..]
      ensures !ok ==> rest == []
    {
      ok, line := rest != [], "";
      if ok {
        line, rest := rest[0], rest[1..];
      }
    }
  }

  method ReadEvent(scanner: Scanner) returns (event: string, data: string, ok: bool)
    modifies scanner
    ensures (if ok then Some(Message(event, data)) else None, scanner.rest) == ReadFrom(old(scanner.rest), NOTHING)
    ensures !ok ==> event == "" && data == ""
  {
    event, data := "", "";
    var dataLines: seq<string> := [];
    var sawAny := false;
    var more, line := scanner.Scan();
    while more
      invariant more ==> ReadFrom([line] + scanner.rest, Partial(event, dataLines)) == ReadFrom(old(scanner.rest), NOTHING)
      invariant !more ==> scanner.rest == [] && ReadFrom([], Partial(event, dataLines)) == ReadFrom(old(scanner.rest), NOTHING)
      invariant !sawAny ==> event == "" && dataLines == []
      decreases more, |scanner.rest|
    {
      sawAny := true;
      assert ([line] + scanner.rest)[1..] == scanner.rest;
      if line == "" {
        if event != "" || dataLines != [] {
          return event, JoinLines(dataLines), true;
        }
      } else if EVENT <= line {
        event := TrimSpace(line[|EVENT|..]);
      } else if DATA <= line {
        dataLines := dataLines + [DropSpace(line[|DATA|..])];
      }
      ghost var left := scanner.rest;
      more, line := scanner.Scan();
      assert more ==> [line] + scanner.rest == left;
    }
    if sawAny && (event != "" || dataLines != []) {
      return event, JoinLines(dataLines), true;
    }
    return "", "", false;
  }

  // ---- Any stream ----

  /** The runs of lines between blank ones. */
  function Paragraphs(lines: seq<string>): (r: seq<seq<string>>)
    ensures r != []
    ensures forall p :: p in r ==> "" !in p
  {
    if lines == [] then [[]]
    else
      var more := Paragraphs(lines[1..]);
      if lines[0] == "" then [[]] + more else [[lines[0]] + more[0]] + more[1..]
  }

  /** One frame for every paragraph that names an event or holds data. */
  function Frames(ps: seq<seq<string>>): seq<Message> {
    if ps == [] then []
    else (match SeeAll(NOTHING, ps[0]).Finished() case None => [] case Some(m) => [m]) + Frames(ps[1..])
  }

  function ReadOn(lines: seq<string>, p: Partial): seq<Message> {
    var (m, rest) := ReadFrom(lines, p);
    if m.None? then [] else [m.value] + ReadAll(rest)
  }

  lemma {:induction false} ReadOnIs(lines: seq<string>, p: Partial)
    ensures var ps := Paragraphs(lines);
            ReadOn(lines, p) ==
            (match SeeAll(p, ps[0]).Finished() case None => [] case Some(m) => [m]) + Frames(ps[1..])
    decreases |lines|
  {
    if lines != [] {
      var more := Paragraphs(lines[1..]);
      if lines[0] != "" {
        ReadOnIs(lines[1..], See(p, lines[0]));
        assert ([lines[0]] + more[0])[1..] == more[0];
      } else {
        ReadOnIs(lines[1..], NOTHING);
        assert ([[]] + more)[1..] == more;
      }
    }
  }

  /** Whatever the stream, reading it to the end gives one message for each paragraph that has an
      event or data, in order, the last one whether or not a blank line ends it. */
  lemma ReadAllIs(lines: seq<string>)
    ensures ReadAll(lines) == Frames(Paragraphs(lines))
  {
    ReadOnIs(lines, NOTHING);
    assert ReadAll(lines) == ReadOn(lines, NOTHING);
  }

  // ---- Printed frames ----

  /** One line of a frame that the reader looks at. */
  datatype Field = Name(name: string) | Data(text: string)

  /** The last name given, empty if there is none. */
  function NameOf(frame: seq<Field>): string {
    if frame == [] then ""
    else
      var last := frame[|frame| - 1];
      if last.Name? then last.name else NameOf(frame[..|frame| - 1])
  }

  /** All data, in order. */
  function DataOf(frame: seq<Field>): seq<string> {
    if frame == [] then []
    else
      var last := frame[|frame| - 1];
      DataOf(frame[..|frame| - 1]) + if last.Data? then [last.text] else []
  }

  predicate IsBlank(s: string) {
    forall i :: 0 <= i < |s| ==> IsUnicodeSpace(s[i])
  }

  /** A name may have any white space around it. */
  ghost predicate Padded(line: string, name: string) {
    exists left, right :: IsBlank(left) && IsBlank(right) && line == "event:" + (left + (name + right))
  }

  /** One space after the colon is not part of data;
      without it the data may not start with a space. */
  ghost predicate Writes(line: string, field: Field) {
    match field
    case Name(name) => IsBare(name) && Padded(line, name)
    case Data(text) =>
      line == "data: " + text || (line == "data:" + text && (text == "" || text[0] != ' '))
  }

  ghost predicate WritesAll(lines: seq<string>, frame: seq<Field>) {
    |lines| == |frame| && forall i :: 0 <= i < |frame| ==> Writes(lines[i], frame[i])
  }

  /** A comment, an id line, any line the reader does not look at. */
  predicate Ignored(line: string) {
    line != "" && !(EVENT <= line) && !(DATA <= line)
  }

  function Significant(lines: seq<string>): seq<string> {
    if lines == [] then []
    else if Ignored(lines[0]) then Significant(lines[1..])
    else [lines[0]] + Significant(lines[1..])
  }

  /** A frame as sent: blank and ignored lines before it, and its own lines with ignored ones
      strewn in. */
  datatype Sent = Sent(gap: seq<string>, frame: seq<Field>, body: seq<string>) {
    ghost predicate Valid() {
      && (NameOf(frame) != "" || DataOf(frame) != [])
      && IsGap(gap)
      && "" !in body
      && WritesAll(Significant(body), frame)
    }
  }

  predicate IsGap(gap: seq<string>) {
    forall i :: 0 <= i < |gap| ==> gap[i] == "" || Ignored(gap[i])
  }

  function Stream(sent: seq<Sent>, end: seq<string>): seq<string> {
    if sent == [] then end
    else sent[0].gap + (sent[0].body + ([""] + Stream(sent[1..], end)))
  }

  function Messages(sent: seq<Sent>): seq<Message> {
    if sent == [] then []
    else [Message(NameOf(sent[0].frame), JoinLines(DataOf(sent[0].frame)))] + Messages(sent[1..])
  }

  lemma {:induction false} SkipGap(gap: seq<string>, rest: seq<string>)
    requires IsGap(gap)
    ensures ReadFrom(gap + rest, NOTHING) == ReadFrom(rest, NOTHING)
  {
    if gap == [] {
      assert gap + rest == rest;
    } else {
      assert (gap + rest)[1..] == gap[1..] + rest;
      SkipGap(gap[1..], rest);
    }
  }

  lemma {:induction false} ReadBody(body: seq<string>, rest: seq<string>, p: Partial)
    requires "" !in body
    ensures ReadFrom(body + rest, p) == ReadFrom(rest, SeeAll(p, body))
  {
    if body == [] {
      assert body + rest == rest;
    } else {
      assert (body + rest)[1..] == body[1..] + rest;
      ReadBody(body[1..], rest, See(p, body[0]));
    }
  }

  lemma SeeAllCons(p: Partial, line: string, rest: seq<string>)
    ensures SeeAll(p, [line] + rest) == SeeAll(See(p, line), rest)
  {
    assert ([line] + rest)[1..] == rest;
  }

  lemma {:induction false} OnlySignificant(lines: seq<string>, p: Partial)
    ensures SeeAll(p, Significant(lines)) == SeeAll(p, lines)
  {
    if lines != [] {
      OnlySignificant(lines[1..], See(p, lines[0]));
      SeeAllCons(p, lines[0], Significant(lines[1..]));
    }
  }

  lemma DataLineIs(p: Partial, line: string, text: string)
    requires Writes(line, Data(text))
    ensures See(p, line) == p.(data := p.data + [text])
  {
    assert line[0] == 'd';
    if line == "data: " + text {
      assert DATA <= line && line[|DATA|..] == " " + text;
    } else {
      assert DATA <= line && line[|DATA|..] == text;
    }
  }

  lemma {:induction false} TrimLeftBlank(left: string, s: string)
    requires IsBlank(left)
    ensures TrimLeft(left + s) == TrimLeft(s)
  {
    if left == "" {
      assert left + s == s;
    } else {
      assert (left + s)[1..] == left[1..] + s;
      TrimLeftBlank(left[1..], s);
    }
  }

  lemma {:induction false} TrimRightBlank(s: string, right: string)
    requires IsBlank(right)
    ensures TrimRight(s + right) == TrimRight(s)
  {
    if right == "" {
      assert s + right == s;
    } else {
      assert (s + right)[..|s + right| - 1] == s + right[..|right| - 1];
      TrimRightBlank(s, right[..|right| - 1]);
    }
  }

  lemma TrimmedBlank(s: string)
    requires IsBlank(s)
    ensures TrimSpace(s) == ""
  {
    TrimLeftBlank(s, "");
    assert s + "" == s;
  }

  /** Trimming leaves a bare name, whatever white space is around it. */
  lemma TrimmedName(left: string, name: string, right: string)
    requires IsBlank(left) && IsBlank(right) && IsBare(name)
    ensures TrimSpace(left + (name + right)) == name
  {
    if name == "" {
      assert name + right == right;
      TrimmedBlank(left + right);
    } else {
      TrimLeftBlank(left, name + right);
      assert (name + right)[0] == name[0];
      TrimRightBlank(name, right);
    }
  }

  lemma NameLineIs(p: Partial, line: string, name: string)
    requires Writes(line, Name(name))
    ensures See(p, line) == p.(event := name)
  {
    var left, right :| IsBlank(left) && IsBlank(right) && line == "event:" + (left + (name + right));
    assert EVENT <= line && line[|EVENT|..] == left + (name + right);
    TrimmedName(left, name, right);
  }

  lemma {:induction false} SeeAllSnoc(p: Partial, lines: seq<string>, line: string)
    ensures SeeAll(p, lines + [line]) == See(SeeAll(p, lines), line)
    decreases |lines|
  {
    if lines == [] {
      assert lines + [line] == [line];
    } else {
      assert (lines + [line])[1..] == lines[1..] + [line];
      SeeAllSnoc(See(p, lines[0]), lines[1..], line);
    }
  }

  lemma FieldLineIs(p: Partial, line: string, field: Field)
    requires Writes(line, field)
    ensures See(p, line) == match field
                            case Name(name) => p.(event := name)
                            case Data(text) => p.(data := p.data + [text])
  {
    match field
    case Name(name) => NameLineIs(p, line, name);
    case Data(text) => DataLineIs(p, line, text);
  }

  lemma FrameSnoc(frame: seq<Field>, field: Field)
    ensures NameOf(frame + [field]) == if field.Name? then field.name else NameOf(frame)
    ensures DataOf(frame + [field]) == DataOf(frame) + if field.Data? then [field.text] else []
  {
    assert (frame + [field])[..|frame|] == frame;
  }

  lemma SeeOneMore(lines: seq<string>, line: string, frame: seq<Field>, field: Field)
    requires SeeAll(NOTHING, lines) == Partial(NameOf(frame), DataOf(frame)) && Writes(line, field)
    ensures SeeAll(NOTHING, lines + [line]) == Partial(NameOf(frame + [field]), DataOf(frame + [field]))
  {
    SeeAllSnoc(NOTHING, lines, line);
    FieldLineIs(SeeAll(NOTHING, lines), line, field);
    FrameSnoc(frame, field);
    assert DataOf(frame) + [] == DataOf(frame);
  }

  lemma WritesInit(lines: seq<string>, frame: seq<Field>)
    requires WritesAll(lines, frame) && frame != []
    ensures WritesAll(lines[..|frame| - 1], frame[..|frame| - 1]) && Writes(lines[|frame| - 1], frame[|frame| - 1])
    ensures lines[..|frame| - 1] + [lines[|frame| - 1]] == lines
    ensures frame[..|frame| - 1] + [frame[|frame| - 1]] == frame
  {
  }

  lemma {:induction false} SeeFrame(lines: seq<string>, frame: seq<Field>)
    requires WritesAll(lines, frame)
    ensures SeeAll(NOTHING, lines) == Partial(NameOf(frame), DataOf(frame))
    decreases |frame|
  {
    if frame == [] {
      assert lines == [];
    } else {
      var n := |frame| - 1;
      WritesInit(lines, frame);
      var before, init, line, last := lines[..n], frame[..n], lines[n], frame[n];
      SeeFrame(before, init);
      SeeOneMore(before, line, init, last);
    }
  }

  lemma ReadSent(s: Sent, rest: seq<string>)
    requires s.Valid() && (rest == [] || rest[0] == "")
    ensures ReadFrom(s.gap + (s.body + rest), NOTHING) ==
            (Some(Message(NameOf(s.frame), JoinLines(DataOf(s.frame)))), if rest == [] then [] else rest[1..])
  {
    SkipGap(s.gap, s.body + rest);
    ReadBody(s.body, rest, NOTHING);
    OnlySignificant(s.body, NOTHING);
    SeeFrame(Significant(s.body), s.frame);
  }

  /** Reading printed frames back gives exactly those frames and then the end, whatever comments,
      id lines and blank lines stand between and inside them. */
  lemma {:induction false} ReadBack(sent: seq<Sent>, end: seq<string>)
    requires (forall s :: s in sent ==> s.Valid()) && IsGap(end)
    ensures ReadAll(Stream(sent, end)) == Messages(sent)
    decreases |sent|
  {
    if sent == [] {
      SkipGap(end, []);
      assert end + [] == end;
    } else {
      var more := Stream(sent[1..], end);
      ReadSent(sent[0], [""] + more);
      assert ([""] + more)[1..] == more;
      ReadBack(sent[1..], end);
    }
  }

  /** A last frame that no blank line ends is returned too, where section 9.2.6 of the WHATWG HTML
      Living Standard discards it. */
  lemma {:induction false} ReadBackUnterminated(sent: seq<Sent>, last: Sent)
    requires (forall s :: s in sent ==> s.Valid()) && last.Valid()
    ensures ReadAll(Stream(sent, last.gap + last.body)) == Messages(sent + [last])
    decreases |sent|
  {
    if sent == [] {
      ReadSent(last, []);
      assert last.body + [] == last.body;
      assert sent + [last] == [last];
    } else {
      var more := Stream(sent[1..], last.gap + last.body);
      ReadSent(sent[0], [""] + more);
      assert ([""] + more)[1..] == more;
      ReadBackUnterminated(sent[1..], last);
      assert (sent + [last])[1..] == sent[1..] + [last];
    }
  }

  // ---- Bytes on the wire ----

  /** One trailing carriage return is not part of a line. */
  function DropReturn(line: string): string {
    if line != "" && line[|line| - 1] == '\r' then line[..|line| - 1] else line
  }

  function DropReturns(lines: seq<string>): (r: seq<string>)
    ensures |r| == |lines|
  {
    if lines == [] then [] else [DropReturn(lines[0])] + DropReturns(lines[1..])
  }

  /** The lines a scanner yields from the text of a stream. */
  function ScanLines(text: string): seq<string> {
    DropReturns(Lines(text))
  }

  /** Lines written out, each ended by a line feed, with or without a carriage return before it. */
  function Wire(lines: seq<string>, ends: seq<bool>): string
    requires |ends| == |lines|
  {
    if lines == [] then ""
    else lines[0] + ((if ends[0] then "\r\n" else "\n") + Wire(lines[1..], ends[1..]))
  }

  /** No line break of either kind. */
  predicate Unbroken(line: string) {
    '\n' !in line && '\r' !in line
  }

  lemma FirstLength(line: string, rest: string)
    requires '\n' !in line
    ensures LineLength(line + ("\n" + rest)) == |line|
  {
    var s := line + ("\n" + rest);
    assert forall i :: 0 <= i < |line| ==> s[i] == line[i];
    assert s[|line|] == '\n';
  }

  lemma LinesAt(s: string, n: nat, line: string, rest: string)
    requires n == LineLength(s) < |s| && s[..n] == line && s[n + 1..] == rest
    ensures Lines(s) == [line] + Lines(rest)
  {
  }

  lemma FirstLineIs(line: string, rest: string)
    requires '\n' !in line
    ensures Lines(line + ("\n" + rest)) == [line] + Lines(rest)
  {
    FirstLength(line, rest);
    LinesAt(line + ("\n" + rest), |line|, line, rest);
  }

  lemma ScanOne(line: string, back: bool, rest: string)
    requires Unbroken(line)
    ensures ScanLines(line + ((if back then "\r\n" else "\n") + rest)) == [line] + ScanLines(rest)
  {
    if back {
      assert line + ("\r\n" + rest) == (line + "\r") + ("\n" + rest);
      FirstLineIs(line + "\r", rest);
      assert DropReturn(line + "\r") == line;
      DropReturnsCons(line + "\r", Lines(rest));
    } else {
      FirstLineIs(line, rest);
      DropReturnsCons(line, Lines(rest));
    }
  }

  lemma DropReturnsCons(line: string, lines: seq<string>)
    ensures DropReturns([line] + lines) == [DropReturn(line)] + DropReturns(lines)
  {
    assert ([line] + lines)[1..] == lines;
  }

  /** Lines without breaks come through the wire unchanged. */
  lemma {:induction false} ScanWire(lines: seq<string>, ends: seq<bool>)
    requires |ends| == |lines| && forall l :: l in lines ==> Unbroken(l)
    ensures ScanLines(Wire(lines, ends)) == lines
    decreases |lines|
  {
    if lines != [] {
      ScanWire(lines[1..], ends[1..]);
      ScanOne(lines[0], ends[0], Wire(lines[1..], ends[1..]));
    }
  }

  /** Names and data without line breaks, sent as text with either kind of line end and any noise in
      between, are read back exactly. */
  lemma ReadBackWire(sent: seq<Sent>, end: seq<string>, ends: seq<bool>)
    requires (forall s :: s in sent ==> s.Valid()) && IsGap(end)
    requires |ends| == |Stream(sent, end)| && forall l :: l in Stream(sent, end) ==> Unbroken(l)
    ensures ReadAll(ScanLines(Wire(Stream(sent, end), ends))) == Messages(sent)
  {
    ScanWire(Stream(sent, end), ends);
    ReadBack(sent, end);
  }
}
