/** What a window shows: joining lines loses nothing, and a grade depends on the streams alone. */
module Windows {
  import opened Ansi
  import opened LineBuffer
  import opened Grading

  // ---- Joining and cutting ----

  /** Each is one line. */
  ghost predicate Whole(lines: seq<Text>) {
    forall i :: 0 <= i < |lines| ==> NEWLINE !in lines[i]
  }

  lemma CutNextLine(before: Text, line: Text, done: seq<Text>, last: Text)
    requires CutOf(before) == Cut(done, last) && NEWLINE !in line
    ensures CutOf(before + [NEWLINE] + line) == Cut(done + [last], line)
  {
    var h := before + [NEWLINE];
    FeedSnoc(before, NEWLINE);
    CutAppend(h, line);
    assert [] + line == line;
    CutOfLine(line);
    assert done + [last] + [] == done + [last];
  }

  /** Cutting undoes joining: the joined text shows exactly these lines, in order. */
  lemma {:induction false} CutOfJoin(lines: seq<Text>)
    requires lines != [] && Whole(lines)
    ensures Complete(Join(lines)) + [Unfinished(Join(lines))] == lines
  {
    var init, last := lines[..|lines| - 1], lines[|lines| - 1];
    if |lines| == 1 {
      CutOfLine(last);
      assert [] + [last] == lines;
    } else {
      CutOfJoin(init);
      CutNextLine(Join(init), last, Complete(Join(init)), Unfinished(Join(init)));
      assert init + [last] == lines;
    }
  }

  lemma JoinSnoc(lines: seq<Text>, line: Text)
    requires lines != []
    ensures Join(lines + [line]) == Join(lines) + [NEWLINE] + line
  {
    assert (lines + [line])[..|lines|] == lines;
  }

  lemma JoinLonger(lines: seq<Text>, line: Text, x: Byte)
    ensures Join(lines + [line + [x]]) == Join(lines + [line]) + [x]
  {
    if lines == [] {
      assert [] + [line + [x]] == [line + [x]] && [] + [line] == [line];
    } else {
      JoinSnoc(lines, line);
      JoinSnoc(lines, line + [x]);
      assert Join(lines) + [NEWLINE] + (line + [x]) == Join(lines) + [NEWLINE] + line + [x];
    }
  }

  lemma JoinFeed(c: Cut, x: Byte)
    ensures Join(Feed(c, x).done + [Feed(c, x).last]) == Join(c.done + [c.last]) + [x]
  {
    if x == NEWLINE {
      JoinSnoc(c.done + [c.last], []);
      assert Join(c.done + [c.last]) + [x] + [] == Join(c.done + [c.last]) + [x];
    } else {
      JoinLonger(c.done, c.last, x);
    }
  }

  lemma WholeFeed(c: Cut, x: Byte)
    requires Whole(c.done) && NEWLINE !in c.last
    ensures Whole(Feed(c, x).done) && NEWLINE !in Feed(c, x).last
  {
  }

  lemma {:induction false} CutIsWhole(s: Text)
    ensures Whole(Complete(s)) && NEWLINE !in Unfinished(s)
  {
    if s != [] {
      CutIsWhole(s[..|s| - 1]);
      WholeFeed(CutOf(s[..|s| - 1]), s[|s| - 1]);
    }
  }

  /** Joining undoes cutting. */
  lemma {:induction false} JoinOfCut(s: Text)
    ensures Join(Complete(s) + [Unfinished(s)]) == s
  {
    if s == [] {
      var one: seq<Text> := [[]];
      assert [] + one == one;
    } else {
      var a, x := s[..|s| - 1], s[|s| - 1];
      JoinOfCut(a);
      JoinFeed(CutOf(a), x);
      assert a + [x] == s;
    }
  }

  // ---- Reachable windows ----

  lemma WholeLastTen(a: seq<Text>, b: seq<Text>)
    requires Whole(a) && Whole(b)
    ensures Whole(LastTen(a + b))
  {
  }

  lemma {:induction false} BuffersAreWhole(c: Config, es: seq<Event>)
    ensures forall a :: a in Run(c, es).assets ==> Whole(Run(c, es).assets[a].lines)
  {
    if es != [] {
      var s, e := Run(c, es[..|es| - 1]), es[|es| - 1];
      BuffersAreWhole(c, es[..|es| - 1]);
      var b := BufferAt(s.assets, e.asset);
      CutIsWhole(Combined(b, e.chunk));
      WholeLastTen(b.lines, Complete(Combined(b, e.chunk)));
    }
  }

  /** In every run a window that holds a line shows its lines, each for itself: a template sees the
      same text only for the same lines. */
  lemma WindowShowsLines(c: Config, es: seq<Event>, a: string)
    requires a in Run(c, es).assets && Run(c, es).assets[a].lines != []
    ensures var w := Window(Run(c, es).assets, a);
            Complete(w) + [Unfinished(w)] == Run(c, es).assets[a].lines
  {
    BuffersAreWhole(c, es);
    CutOfJoin(Run(c, es).assets[a].lines);
  }

  // ---- Grades from streams ----

  /** What `a` has printed so far, without escape sequences. */
  function Printed(es: seq<Event>, a: string): Text {
    Strip(Stream(es, a))
  }

  /** The text a template sees: the last at most ten complete lines, with breaks between them. */
  ghost predicate Sees(printed: Text, w: Text) {
    var lines := Complete(printed);
    if lines == [] then w == []
    else Complete(w) + [Unfinished(w)] == if |lines| <= 10 then lines else lines[|lines| - 10..]
  }

  ghost predicate Matches(re: Regex, printed: Text) {
    exists w :: Sees(printed, w) && re(w)
  }

  /** Event `k` brings its asset a further line, and then what the task watches, its own asset or any
      one heard of, matches. */
  ghost predicate PassesBy(t: Task, re: Regex, es: seq<Event>, k: nat)
    requires k < |es|
  {
    var now := es[..k + 1];
    && |Complete(Printed(now, es[k].asset))| > |Complete(Printed(es[..k], es[k].asset))|
    && if t.asset != "" then t.asset == es[k].asset && Matches(re, Printed(now, t.asset))
       else exists j :: 0 <= j <= k && Matches(re, Printed(now, es[j].asset))
  }

  lemma LastTenIs(lines: seq<Text>)
    requires Whole(lines)
    ensures Whole(LastTen(lines)) && (LastTen(lines) == [] <==> lines == [])
    ensures LastTen(lines) == if |lines| <= 10 then lines else lines[|lines| - 10..]
  {
  }

  lemma SeesLines(printed: Text, lines: seq<Text>)
    requires lines == Complete(printed) && Whole(lines)
    ensures Sees(printed, Join(LastTen(lines)))
  {
    LastTenIs(lines);
    if lines != [] {
      CutOfJoin(LastTen(lines));
    }
  }

  lemma SeesWindow(printed: Text)
    ensures Sees(printed, Join(BufferOf(printed).lines))
  {
    CutIsWhole(printed);
    SeesLines(printed, Complete(printed));
  }

  /** There is only one such text. */
  lemma SeesOnce(printed: Text, w: Text)
    requires Sees(printed, w)
    ensures w == Join(BufferOf(printed).lines)
  {
    JoinOfCut(w);
  }

  lemma MatchesWindow(re: Regex, printed: Text)
    ensures Matches(re, printed) <==> re(Join(BufferOf(printed).lines))
  {
    SeesWindow(printed);
    if Matches(re, printed) {
      var w :| Sees(printed, w) && re(w);
      SeesOnce(printed, w);
    }
  }

  ghost predicate Heard(es: seq<Event>, a: string) {
    exists j :: 0 <= j < |es| && es[j].asset == a
  }

  lemma HeardSnoc(es: seq<Event>, e: Event, a: string)
    ensures Heard(es + [e], a) <==> Heard(es, a) || e.asset == a
  {
    var all := es + [e];
    assert all[|es|] == e;
    assert forall j :: 0 <= j < |es| ==> all[j] == es[j];
  }

  lemma StepHears(c: Config, s: State, e: Event, a: string)
    ensures a in Step(c, s, e).assets <==> a in s.assets || e.asset == a
  {
  }

  lemma HeardStep(c: Config, es: seq<Event>, e: Event, a: string)
    requires a in Run(c, es).assets <==> Heard(es, a)
    ensures a in Run(c, es + [e]).assets <==> Heard(es + [e], a)
  {
    RunSnoc(c, es, e);
    StepHears(c, Run(c, es), e, a);
    HeardSnoc(es, e, a);
  }

  lemma {:induction false} HeardOf(c: Config, es: seq<Event>, a: string)
    ensures a in Run(c, es).assets <==> Heard(es, a)
  {
    if es != [] {
      HeardOf(c, es[..|es| - 1], a);
      HeardStep(c, es[..|es| - 1], es[|es| - 1], a);
      assert es[..|es| - 1] + [es[|es| - 1]] == es;
    }
  }

  lemma WindowIs(c: Config, es: seq<Event>, a: string)
    requires CleanRun(es) && a in Run(c, es).assets
    ensures Window(Run(c, es).assets, a) == Join(BufferOf(Printed(es, a)).lines)
  {
    BuffersFollowStreams(c, es);
    assert BufferAt(Run(c, es).assets, a) == BufferOf(Strip(Stream(es, a)));
  }

  lemma OneMore(es: seq<Event>, k: nat)
    requires k < |es|
    ensures es[..k + 1] == es[..k] + [es[k]]
  {
  }

  lemma {:induction false} CleanUpTo(es: seq<Event>, k: nat)
    requires CleanRun(es) && k <= |es|
    ensures CleanRun(es[..k])
  {
    if k == |es| {
      assert es[..k] == es;
    } else {
      var init := es[..|es| - 1];
      assert es == init + [es[|es| - 1]];
      CleanRunSnoc(init, es[|es| - 1]);
      CleanUpTo(init, k);
      assert init[..k] == es[..k];
    }
  }

  lemma LineCompleted(c: Config, es: seq<Event>, e: Event)
    requires CleanRun(es + [e])
    ensures CompletesLine(BufferAt(Run(c, es).assets, e.asset), e.chunk) <==>
            |Complete(Printed(es + [e], e.asset))| > |Complete(Printed(es, e.asset))|
  {
    CleanRunSnoc(es, e);
    BuffersFollowStreams(c, es);
    assert BufferAt(Run(c, es).assets, e.asset) == BufferOf(Strip(Stream(es, e.asset)));
    StreamSnoc(es, e, e.asset);
    BufferStep(Stream(es, e.asset), e.chunk);
  }

  lemma HitIs(c: Config, t: Task, re: Regex, es: seq<Event>, changed: string)
    requires CleanRun(es) && changed in Run(c, es).assets
    ensures Hit(t, re, Run(c, es).assets, changed) <==>
            if t.asset != "" then t.asset == changed && Matches(re, Printed(es, t.asset))
            else exists j :: 0 <= j < |es| && Matches(re, Printed(es, es[j].asset))
  {
    var assets := Run(c, es).assets;
    forall a | a in assets
      ensures re(Window(assets, a)) <==> Matches(re, Printed(es, a))
    {
      WindowIs(c, es, a);
      MatchesWindow(re, Printed(es, a));
    }
    forall a
      ensures a in assets <==> Heard(es, a)
    {
      HeardOf(c, es, a);
    }
  }

  lemma PassesByIs(c: Config, i: nat, es: seq<Event>, k: nat)
    requires i < |c.tasks| && CleanRun(es) && k < |es| && c.compile(c.tasks[i].template).Some?
    ensures PassesAt(c, i, es, k) <==> PassesBy(c.tasks[i], c.compile(c.tasks[i].template).value, es, k)
  {
    var now := es[..k + 1];
    OneMore(es, k);
    CleanUpTo(es, k + 1);
    LineCompleted(c, es[..k], es[k]);
    RunSnoc(c, es[..k], es[k]);
    HitIs(c, c.tasks[i], c.compile(c.tasks[i].template).value, now, es[k].asset);
    assert forall j :: 0 <= j <= k ==> now[j] == es[j];
  }

  /** For clean streams, the grade of a task in terms of the streams alone: it is true exactly if its
      template compiles and at some event that completed a line it matched the last ten lines of its
      asset or, if it names none, of some asset. */
  lemma GradedByStreams(c: Config, es: seq<Event>, i: nat)
    requires DistinctIds(c.tasks) && i < |c.tasks| && CleanRun(es)
    ensures var t := c.tasks[i];
            t.id in Run(c, es).passed <==>
            c.compile(t.template).Some? && exists k :: 0 <= k < |es| && PassesBy(t, c.compile(t.template).value, es, k)
  {
    PassedExactly(c, es, i);
    if c.compile(c.tasks[i].template).Some? {
      forall k | 0 <= k < |es|
        ensures PassesAt(c, i, es, k) <==> PassesBy(c.tasks[i], c.compile(c.tasks[i].template).value, es, k)
      {
        PassesByIs(c, i, es, k);
      }
    }
  }
}
