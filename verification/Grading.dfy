/** Turning line windows into sticky grades: one ingest event, and whole runs of them. */
module Grading {
  import opened Ansi
  import opened LineBuffer
  import opened Options

  /** A compiled template: which windows it matches. */
  type Regex = Text -> bool

  /** An empty `asset` makes a task lab-wide. */
  datatype Task = Task(id: string, template: string, asset: string)

  datatype Config = Config(tasks: seq<Task>, compile: string -> Option<Regex>)

  datatype Event = Event(asset: string, chunk: Text)

  datatype State = State(assets: map<string, Buffer>, passed: set<string>)

  /** One message to a client: the whole grade map. */
  type Grades = map<string, bool>

  const START := State(map[], {})

  // ---- Configuration ----

  /** The compiled templates by task id; templates that do not compile are left out. */
  function Compiled(tasks: seq<Task>, compile: string -> Option<Regex>): map<string, Regex> {
    if tasks == [] then map[]
    else
      var before := Compiled(tasks[..|tasks| - 1], compile);
      var t := tasks[|tasks| - 1];
      match compile(t.template)
      case None => before
      case Some(re) => before[t.id := re]
  }

  ghost predicate DistinctIds(tasks: seq<Task>) {
    forall i, j :: 0 <= i < j < |tasks| ==> tasks[i].id != tasks[j].id
  }

  function Ids(tasks: seq<Task>): set<string> {
    set i | 0 <= i < |tasks| :: tasks[i].id
  }

  lemma {:induction false} CompiledKeys(tasks: seq<Task>, compile: string -> Option<Regex>)
    ensures Compiled(tasks, compile).Keys <= Ids(tasks)
  {
    if tasks != [] {
      var init := tasks[..|tasks| - 1];
      CompiledKeys(init, compile);
      assert forall i :: 0 <= i < |init| ==> init[i] == tasks[i];
      assert tasks[|tasks| - 1].id in Ids(tasks);
    }
  }

  /** With distinct ids, the regex looked up for a task is its own compiled template. */
  lemma {:induction false} CompiledOwn(tasks: seq<Task>, compile: string -> Option<Regex>, i: nat)
    requires DistinctIds(tasks) && i < |tasks|
    ensures tasks[i].id in Compiled(tasks, compile) <==> compile(tasks[i].template).Some?
    ensures compile(tasks[i].template).Some? ==>
              Compiled(tasks, compile)[tasks[i].id] == compile(tasks[i].template).value
  {
    var init := tasks[..|tasks| - 1];
    if i < |init| {
      CompiledOwn(init, compile, i);
    } else {
      CompiledKeys(init, compile);
      assert forall j :: 0 <= j < |init| ==> init[j] == tasks[j];
    }
  }

  // ---- One event ----

  function Window(assets: map<string, Buffer>, a: string): Text
    requires a in assets
  {
    Join(assets[a].lines)
  }

  /** The window of some relevant asset matches, scanning every asset for a lab-wide task. */
  ghost predicate Hit(t: Task, re: Regex, assets: map<string, Buffer>, changed: string)
    requires changed in assets
  {
    if t.asset != "" then t.asset == changed && re(Window(assets, changed))
    else exists a :: a in assets && re(Window(assets, a))
  }

  ghost predicate HitsTask(c: Config, i: nat, assets: map<string, Buffer>, changed: string)
    requires i < |c.tasks| && changed in assets
  {
    var regexes := Compiled(c.tasks, c.compile);
    c.tasks[i].id in regexes && Hit(c.tasks[i], regexes[c.tasks[i].id], assets, changed)
  }

  ghost function NewlyHit(c: Config, assets: map<string, Buffer>, changed: string): set<string>
    requires changed in assets
  {
    set i | 0 <= i < |c.tasks| && HitsTask(c, i, assets, changed) :: c.tasks[i].id
  }

  function BufferAt(assets: map<string, Buffer>, a: string): Buffer {
    if a in assets then assets[a] else EMPTY
  }

  ghost function Step(c: Config, s: State, e: Event): State {
    var b := BufferAt(s.assets, e.asset);
    var assets := s.assets[e.asset := IngestSpec(b, e.chunk)];
    if CompletesLine(b, e.chunk) then State(assets, s.passed + NewlyHit(c, assets, e.asset))
    else State(assets, s.passed)
  }

  ghost function Run(c: Config, es: seq<Event>): State {
    if es == [] then START else Step(c, Run(c, es[..|es| - 1]), es[|es| - 1])
  }

  function GradesOf(tasks: seq<Task>, passed: set<string>): Grades {
    map id | id in Ids(tasks) :: id in passed
  }

  // ---- When exactly a task is graded true ----

  /** Event `e` on state `s` completes a line and a window relevant to task `i` then matches its
      template. */
  ghost predicate PassesOn(c: Config, i: nat, s: State, e: Event)
    requires i < |c.tasks|
  {
    var t := c.tasks[i];
    && c.compile(t.template).Some?
    && CompletesLine(BufferAt(s.assets, e.asset), e.chunk)
    && Hit(t, c.compile(t.template).value, Step(c, s, e).assets, e.asset)
  }

  ghost predicate PassesAt(c: Config, i: nat, es: seq<Event>, k: nat)
    requires i < |c.tasks| && k < |es|
  {
    PassesOn(c, i, Run(c, es[..k]), es[k])
  }

  lemma NewlyHitOwn(c: Config, i: nat, assets: map<string, Buffer>, changed: string)
    requires i < |c.tasks| && changed in assets
    ensures HitsTask(c, i, assets, changed) ==> c.tasks[i].id in NewlyHit(c, assets, changed)
    ensures DistinctIds(c.tasks) ==>
              (c.tasks[i].id in NewlyHit(c, assets, changed) <==> HitsTask(c, i, assets, changed))
  {
  }

  /** An event passes a task iff it completes a line and newly hits that task. */
  lemma StepPassesOwn(c: Config, i: nat, s: State, e: Event)
    requires DistinctIds(c.tasks) && i < |c.tasks|
    ensures c.tasks[i].id in Step(c, s, e).passed <==> c.tasks[i].id in s.passed || PassesOn(c, i, s, e)
  {
    CompiledOwn(c.tasks, c.compile, i);
    NewlyHitOwn(c, i, Step(c, s, e).assets, e.asset);
  }

  lemma {:induction false} PassingEvent(c: Config, es: seq<Event>, i: nat) returns (k: nat)
    requires DistinctIds(c.tasks) && i < |c.tasks|
    requires c.tasks[i].id in Run(c, es).passed
    ensures k < |es| && PassesAt(c, i, es, k)
  {
    var n := |es| - 1;
    StepPassesOwn(c, i, Run(c, es[..n]), es[n]);
    if c.tasks[i].id in Run(c, es[..n]).passed {
      k := PassingEvent(c, es[..n], i);
      assert es[..n][..k] == es[..k];
    } else {
      k := n;
    }
  }

  lemma {:induction false} PassedGrow(c: Config, es: seq<Event>, k: nat)
    requires k <= |es|
    ensures Run(c, es[..k]).passed <= Run(c, es).passed
  {
    if k == |es| {
      assert es[..k] == es;
    } else {
      var init := es[..|es| - 1];
      PassedGrow(c, init, k);
      assert init[..k] == es[..k];
    }
  }

  lemma PassingSnoc(c: Config, es: seq<Event>, e: Event, i: nat)
    requires DistinctIds(c.tasks) && i < |c.tasks| && PassesOn(c, i, Run(c, es), e)
    ensures c.tasks[i].id in Run(c, es + [e]).passed
  {
    StepPassesOwn(c, i, Run(c, es), e);
    RunSnoc(c, es, e);
  }

  lemma PassingStep(c: Config, es: seq<Event>, i: nat, k: nat)
    requires DistinctIds(c.tasks) && i < |c.tasks|
    requires k < |es| && PassesAt(c, i, es, k)
    ensures c.tasks[i].id in Run(c, es[..k + 1]).passed
  {
    PassingSnoc(c, es[..k], es[k], i);
    assert es[..k + 1] == es[..k] + [es[k]];
  }

  lemma PassIsKept(c: Config, es: seq<Event>, i: nat, k: nat)
    requires DistinctIds(c.tasks) && i < |c.tasks|
    requires k < |es| && PassesAt(c, i, es, k)
    ensures c.tasks[i].id in Run(c, es).passed
  {
    PassingStep(c, es, i, k);
    PassedGrow(c, es, k + 1);
  }

  /** A task is graded true exactly when some event of the run passed it. */
  lemma PassedExactly(c: Config, es: seq<Event>, i: nat)
    requires DistinctIds(c.tasks) && i < |c.tasks|
    ensures c.tasks[i].id in Run(c, es).passed <==> exists k :: 0 <= k < |es| && PassesAt(c, i, es, k)
  {
    if c.tasks[i].id in Run(c, es).passed {
      var k := PassingEvent(c, es, i);
    }
    forall k | 0 <= k < |es| && PassesAt(c, i, es, k)
      ensures c.tasks[i].id in Run(c, es).passed
    {
      PassIsKept(c, es, i, k);
    }
  }

  // ---- Broadcasts of a run ----

  ghost predicate Broadcasts(c: Config, s: State, e: Event) {
    Step(c, s, e).passed != s.passed
  }

  /** The grade maps broadcast during a run, in order. */
  ghost function Sent(c: Config, es: seq<Event>): seq<Grades> {
    if es == [] then []
    else
      var s, e := Run(c, es[..|es| - 1]), es[|es| - 1];
      Sent(c, es[..|es| - 1]) +
      if Broadcasts(c, s, e) then [GradesOf(c.tasks, Step(c, s, e).passed)] else []
  }

  /** Grades of `g` are kept by `h`. */
  ghost predicate AtMost(g: Grades, h: Grades) {
    g.Keys == h.Keys && forall id :: id in g && g[id] ==> h[id]
  }

  lemma StepPassed(c: Config, s: State, e: Event)
    requires s.passed <= Ids(c.tasks)
    ensures s.passed <= Step(c, s, e).passed <= Ids(c.tasks)
  {
  }

  lemma {:induction false} IdsAtMost(tasks: seq<Task>)
    ensures |Ids(tasks)| <= |tasks|
  {
    if tasks != [] {
      var init := tasks[..|tasks| - 1];
      IdsAtMost(init);
      assert forall i :: 0 <= i < |init| ==> init[i] == tasks[i];
      assert Ids(tasks) == Ids(init) + {tasks[|tasks| - 1].id};
    }
  }

  lemma SubsetSize<T>(a: set<T>, b: set<T>)
    requires a <= b
    ensures |a| <= |b| && (a != b ==> |a| < |b|)
  {
    assert b == a + (b - a);
    assert |b| == |a| + |b - a|;
  }

  lemma GradesGrow(tasks: seq<Task>, p: set<string>, q: set<string>)
    requires p <= q <= Ids(tasks)
    ensures AtMost(GradesOf(tasks, p), GradesOf(tasks, q))
    ensures p != q ==> GradesOf(tasks, p) != GradesOf(tasks, q)
  {
    if p != q {
      var id :| id in q && id !in p;
      assert GradesOf(tasks, q)[id] && !GradesOf(tasks, p)[id];
    }
  }

  lemma {:induction false} PassedAreTasks(c: Config, es: seq<Event>)
    ensures Run(c, es).passed <= Ids(c.tasks)
  {
    if es != [] {
      PassedAreTasks(c, es[..|es| - 1]);
      StepPassed(c, Run(c, es[..|es| - 1]), es[|es| - 1]);
    }
  }

  ghost predicate Rising(msgs: seq<Grades>) {
    forall m :: 0 <= m < |msgs| - 1 ==> AtMost(msgs[m], msgs[m + 1]) && msgs[m] != msgs[m + 1]
  }

  /** `msgs` are the broadcasts made so far when the passed tasks are `passed`. */
  ghost predicate SentSoFar(tasks: seq<Task>, msgs: seq<Grades>, passed: set<string>) {
    && passed <= Ids(tasks)
    && Rising(msgs)
    && (if msgs == [] then passed == {} else msgs[|msgs| - 1] == GradesOf(tasks, passed))
    && |msgs| <= |passed|
  }

  lemma SendOne(tasks: seq<Task>, msgs: seq<Grades>, p: set<string>, q: set<string>)
    requires SentSoFar(tasks, msgs, p) && p <= q <= Ids(tasks) && p != q
    ensures SentSoFar(tasks, msgs + [GradesOf(tasks, q)], q)
  {
    GradesGrow(tasks, p, q);
    SubsetSize(p, q);
  }

  lemma {:induction false} SentInvariant(c: Config, es: seq<Event>)
    ensures SentSoFar(c.tasks, Sent(c, es), Run(c, es).passed)
  {
    if es != [] {
      var init, e := es[..|es| - 1], es[|es| - 1];
      SentInvariant(c, init);
      StepPassed(c, Run(c, init), e);
      if Broadcasts(c, Run(c, init), e) {
        SendOne(c.tasks, Sent(c, init), Run(c, init).passed, Run(c, es).passed);
      } else {
        assert Sent(c, init) + [] == Sent(c, init);
      }
    }
  }

  lemma SentIsFew(tasks: seq<Task>, msgs: seq<Grades>, passed: set<string>)
    requires SentSoFar(tasks, msgs, passed)
    ensures |msgs| <= |passed| <= |tasks|
  {
    SubsetSize(passed, Ids(tasks));
    IdsAtMost(tasks);
  }

  /** Every broadcast is strictly above the one before it, the last one is the current grade map,
      and a run makes at most one broadcast per task. */
  lemma BroadcastsRise(c: Config, es: seq<Event>)
    ensures Rising(Sent(c, es))
    ensures if Sent(c, es) == [] then Run(c, es).passed == {}
            else Sent(c, es)[|Sent(c, es)| - 1] == GradesOf(c.tasks, Run(c, es).passed)
    ensures |Sent(c, es)| <= |Run(c, es).passed| <= |c.tasks|
  {
    SentInvariant(c, es);
    SentIsFew(c.tasks, Sent(c, es), Run(c, es).passed);
  }

  // ---- The lab-wide scan ----

  ghost predicate Valid(c: Config, i: nat)
    requires i < |c.tasks|
  {
    c.tasks[i].id in Compiled(c.tasks, c.compile)
  }

  ghost function RegexOf(c: Config, i: nat): Regex
    requires i < |c.tasks| && Valid(c, i)
  {
    Compiled(c.tasks, c.compile)[c.tasks[i].id]
  }

  ghost predicate Relevant(t: Task, a: string) {
    t.asset == "" || t.asset == a
  }

  /** No unpassed valid task matches a relevant buffer that holds a line. */
  ghost predicate NothingMissed(c: Config, s: State) {
    forall i, a ::
      0 <= i < |c.tasks| && Valid(c, i) && c.tasks[i].id !in s.passed &&
      a in s.assets && Relevant(c.tasks[i], a) && s.assets[a].lines != [] ==>
        !RegexOf(c, i)(Window(s.assets, a))
  }

  ghost predicate Bounded(s: State) {
    forall a :: a in s.assets ==> |s.assets[a].lines| <= RING_CAPACITY
  }

  lemma StepMissesNothing(c: Config, s: State, e: Event)
    requires NothingMissed(c, s) && Bounded(s)
    ensures NothingMissed(c, Step(c, s, e)) && Bounded(Step(c, s, e))
  {
    var s' := Step(c, s, e);
    LinesKept(BufferAt(s.assets, e.asset), e.chunk);
    forall i, a | 0 <= i < |c.tasks| && Valid(c, i) && c.tasks[i].id !in s'.passed &&
                  a in s'.assets && Relevant(c.tasks[i], a) && s'.assets[a].lines != []
      ensures !RegexOf(c, i)(Window(s'.assets, a))
    {
      UnpassedMisses(c, s, e, i, a);
    }
  }

  lemma LinesUnchanged(c: Config, s: State, e: Event, a: string)
    requires Bounded(s) && a in Step(c, s, e).assets && Step(c, s, e).assets[a].lines != []
    requires a == e.asset ==> !CompletesLine(BufferAt(s.assets, e.asset), e.chunk)
    ensures a in s.assets && s.assets[a].lines == Step(c, s, e).assets[a].lines
  {
    LinesKept(BufferAt(s.assets, e.asset), e.chunk);
  }

  lemma UnpassedMissesOwn(c: Config, s: State, e: Event, i: nat)
    requires i < |c.tasks| && Valid(c, i) && Relevant(c.tasks[i], e.asset)
    requires CompletesLine(BufferAt(s.assets, e.asset), e.chunk)
    requires c.tasks[i].id !in Step(c, s, e).passed
    ensures !RegexOf(c, i)(Window(Step(c, s, e).assets, e.asset))
  {
    NewlyHitOwn(c, i, Step(c, s, e).assets, e.asset);
  }

  /** A window that did not change still misses. */
  lemma StillMisses(c: Config, s: State, assets: map<string, Buffer>, i: nat, a: string)
    requires NothingMissed(c, s) && i < |c.tasks| && Valid(c, i) && c.tasks[i].id !in s.passed
    requires a in s.assets && a in assets && Relevant(c.tasks[i], a)
    requires s.assets[a].lines == assets[a].lines != []
    ensures !RegexOf(c, i)(Window(assets, a))
  {
    assert Window(assets, a) == Window(s.assets, a);
  }

  lemma StepGrows(c: Config, s: State, e: Event)
    ensures s.passed <= Step(c, s, e).passed
  {
  }

  lemma UnpassedMisses(c: Config, s: State, e: Event, i: nat, a: string)
    requires NothingMissed(c, s) && Bounded(s)
    requires i < |c.tasks| && Valid(c, i) && c.tasks[i].id !in Step(c, s, e).passed
    requires a in Step(c, s, e).assets && Relevant(c.tasks[i], a) && Step(c, s, e).assets[a].lines != []
    ensures !RegexOf(c, i)(Window(Step(c, s, e).assets, a))
  {
    if a == e.asset && CompletesLine(BufferAt(s.assets, e.asset), e.chunk) {
      UnpassedMissesOwn(c, s, e, i);
    } else {
      LinesUnchanged(c, s, e, a);
      StepGrows(c, s, e);
      StillMisses(c, s, Step(c, s, e).assets, i, a);
    }
  }

  lemma {:induction false} RunMissesNothing(c: Config, es: seq<Event>)
    ensures NothingMissed(c, Run(c, es)) && Bounded(Run(c, es))
  {
    if es != [] {
      RunMissesNothing(c, es[..|es| - 1]);
      StepMissesNothing(c, Run(c, es[..|es| - 1]), es[|es| - 1]);
    }
  }

  lemma OtherAssetHits(c: Config, s: State, i: nat, a: string)
    requires NothingMissed(c, s) && i < |c.tasks| && c.tasks[i].asset == "" && Valid(c, i)
    requires c.tasks[i].id !in s.passed && a in s.assets
    ensures RegexOf(c, i)(Window(s.assets, a)) <==> RegexOf(c, i)([]) && s.assets[a].lines == []
  {
    assert Relevant(c.tasks[i], a);
  }

  /** At every line-completing event, the scan of all assets passes an unpassed lab-wide task iff
      the scan of the changed asset does, or the template matches the empty text and some asset
      holds no line yet. */
  lemma FullScanExactly(c: Config, es: seq<Event>, e: Event, i: nat)
    requires i < |c.tasks| && c.tasks[i].asset == "" && Valid(c, i)
    requires c.tasks[i].id !in Run(c, es).passed
    requires CompletesLine(BufferAt(Run(c, es).assets, e.asset), e.chunk)
    ensures var assets := Step(c, Run(c, es), e).assets;
            var re := RegexOf(c, i);
            HitsTask(c, i, assets, e.asset) <==>
            (re(Window(assets, e.asset)) || (re([]) && exists a :: a in assets && assets[a].lines == []))
  {
    RunMissesNothing(c, es);
    var s := Run(c, es);
    var assets := Step(c, s, e).assets;
    var re := RegexOf(c, i);
    LinesKept(BufferAt(s.assets, e.asset), e.chunk);
    forall a | a in assets && a != e.asset
      ensures re(Window(assets, a)) <==> (re([]) && assets[a].lines == [])
    {
      assert assets[a] == s.assets[a];
      OtherAssetHits(c, s, i, a);
    }
    assert HitsTask(c, i, assets, e.asset) <==> exists a :: a in assets && re(Window(assets, a));
  }

  // ---- Scanning only what changed ----

  ghost predicate HitsLocally(c: Config, i: nat, assets: map<string, Buffer>, changed: string)
    requires i < |c.tasks| && changed in assets
  {
    Valid(c, i) && Relevant(c.tasks[i], changed) && RegexOf(c, i)(Window(assets, changed))
  }

  ghost function LocalStep(c: Config, s: State, e: Event): State {
    var b := BufferAt(s.assets, e.asset);
    var assets := s.assets[e.asset := IngestSpec(b, e.chunk)];
    if CompletesLine(b, e.chunk) then
      State(assets, s.passed + set i | 0 <= i < |c.tasks| && HitsLocally(c, i, assets, e.asset) :: c.tasks[i].id)
    else State(assets, s.passed)
  }

  ghost function LocalRun(c: Config, es: seq<Event>): State {
    if es == [] then START else LocalStep(c, LocalRun(c, es[..|es| - 1]), es[|es| - 1])
  }

  ghost predicate NoEmptyMatch(c: Config) {
    forall i :: 0 <= i < |c.tasks| && Valid(c, i) && c.tasks[i].asset == "" ==> !RegexOf(c, i)([])
  }

  /** If no lab-wide template matches the empty text, scanning only the changed asset grades alike. */
  lemma {:induction false} LocalScanSuffices(c: Config, es: seq<Event>)
    requires NoEmptyMatch(c)
    ensures LocalRun(c, es) == Run(c, es)
  {
    if es != [] {
      var init, e := es[..|es| - 1], es[|es| - 1];
      LocalScanSuffices(c, init);
      var s := Run(c, init);
      var b := BufferAt(s.assets, e.asset);
      var assets := s.assets[e.asset := IngestSpec(b, e.chunk)];
      if CompletesLine(b, e.chunk) {
        forall i | 0 <= i < |c.tasks| && c.tasks[i].id !in s.passed
          ensures HitsLocally(c, i, assets, e.asset) <==> HitsTask(c, i, assets, e.asset)
        {
          if Valid(c, i) && c.tasks[i].asset == "" {
            FullScanExactly(c, init, e, i);
          }
        }
        assert LocalStep(c, s, e).passed == Step(c, s, e).passed;
      }
    }
  }

  // ---- Cutting events into smaller ones ----

  /** One delivery of consecutive chunks of the same asset. */
  datatype Delivery = Delivery(asset: string, chunks: seq<Text>)

  function Pieces(a: string, chunks: seq<Text>): seq<Event> {
    if chunks == [] then [] else Pieces(a, chunks[..|chunks| - 1]) + [Event(a, chunks[|chunks| - 1])]
  }

  function Fine(ds: seq<Delivery>): seq<Event> {
    if ds == [] then [] else Fine(ds[..|ds| - 1]) + Pieces(ds[|ds| - 1].asset, ds[|ds| - 1].chunks)
  }

  function Coarse(ds: seq<Delivery>): seq<Event> {
    if ds == [] then []
    else Coarse(ds[..|ds| - 1]) + [Event(ds[|ds| - 1].asset, Flatten(ds[|ds| - 1].chunks))]
  }

  /** Everything asset `a` has produced. */
  function Stream(es: seq<Event>, a: string): Text {
    if es == [] then []
    else
      var e := es[|es| - 1];
      Stream(es[..|es| - 1], a) + if e.asset == a then e.chunk else []
  }

  ghost predicate CleanRun(es: seq<Event>) {
    forall a :: Clean(Strip(Stream(es, a)))
  }

  lemma StreamSnoc(es: seq<Event>, e: Event, a: string)
    ensures Stream(es + [e], a) == Stream(es, a) + if e.asset == a then e.chunk else []
  {
    assert (es + [e])[..|es|] == es;
  }

  lemma RunSnoc(c: Config, es: seq<Event>, e: Event)
    ensures Run(c, es + [e]) == Step(c, Run(c, es), e)
  {
    assert (es + [e])[..|es|] == es;
  }

  lemma CleanRunSnoc(es: seq<Event>, e: Event)
    requires CleanRun(es + [e])
    ensures CleanRun(es)
  {
    forall a
      ensures Clean(Strip(Stream(es, a)))
    {
      StreamSnoc(es, e, a);
      StripCleanPrefix(Stream(es, a), if e.asset == a then e.chunk else []);
    }
  }

  /** Buffers depend on the streams alone. */
  ghost predicate BuffersFollow(s: State, es: seq<Event>) {
    forall a :: BufferAt(s.assets, a) == BufferOf(Strip(Stream(es, a)))
  }

  lemma BufferStep(stream: Text, chunk: Text)
    requires Clean(Strip(stream + chunk))
    ensures IngestSpec(BufferOf(Strip(stream)), chunk) == BufferOf(Strip(stream + chunk))
    ensures CompletesLine(BufferOf(Strip(stream)), chunk) <==>
            |Complete(Strip(stream + chunk))| > |Complete(Strip(stream))|
  {
    StripCleanPrefix(stream, chunk);
    IngestStep(Strip(stream), chunk);
    StripStep(stream, chunk);
  }

  lemma BuffersFollowStep(c: Config, s: State, es: seq<Event>, e: Event)
    requires CleanRun(es + [e]) && BuffersFollow(s, es)
    ensures BuffersFollow(Step(c, s, e), es + [e])
  {
    forall a
      ensures BufferAt(Step(c, s, e).assets, a) == BufferOf(Strip(Stream(es + [e], a)))
    {
      StreamSnoc(es, e, a);
      assert BufferAt(s.assets, a) == BufferOf(Strip(Stream(es, a)));
      if a == e.asset {
        BufferStep(Stream(es, a), e.chunk);
      } else {
        assert Stream(es, a) + [] == Stream(es, a);
      }
    }
  }

  lemma {:induction false} BuffersFollowStreams(c: Config, es: seq<Event>)
    requires CleanRun(es)
    ensures BuffersFollow(Run(c, es), es)
  {
    if es != [] {
      var init, e := es[..|es| - 1], es[|es| - 1];
      assert es == init + [e];
      CleanRunSnoc(init, e);
      BuffersFollowStreams(c, init);
      BuffersFollowStep(c, Run(c, init), init, e);
    }
  }

  lemma {:induction false} StreamOfPieces(es: seq<Event>, a: string, chunks: seq<Text>, x: string)
    ensures Stream(es + Pieces(a, chunks), x) == Stream(es, x) + if a == x then Flatten(chunks) else []
  {
    if chunks == [] {
      assert es + [] == es && Stream(es, x) + [] == Stream(es, x);
    } else {
      var init, c := chunks[..|chunks| - 1], chunks[|chunks| - 1];
      StreamOfPieces(es, a, init, x);
      PiecesSnoc(es, a, chunks);
      StreamSnoc(es + Pieces(a, init), Event(a, c), x);
    }
  }

  lemma PiecesSnoc(es: seq<Event>, a: string, chunks: seq<Text>)
    requires chunks != []
    ensures es + Pieces(a, chunks) == es + Pieces(a, chunks[..|chunks| - 1]) + [Event(a, chunks[|chunks| - 1])]
  {
  }

  lemma {:induction false} SameStreams(ds: seq<Delivery>, x: string)
    ensures Stream(Coarse(ds), x) == Stream(Fine(ds), x)
  {
    if ds != [] {
      var init, d := ds[..|ds| - 1], ds[|ds| - 1];
      SameStreams(init, x);
      StreamOfPieces(Fine(init), d.asset, d.chunks, x);
      StreamSnoc(Coarse(init), Event(d.asset, Flatten(d.chunks)), x);
    }
  }

  ghost function HitsNow(c: Config, s: State, a: string): set<string> {
    if a in s.assets then NewlyHit(c, s.assets, a) else {}
  }

  /** What a scan finds depends only on the assets present and their lines. */
  lemma HitsSeeLines(c: Config, s1: State, s2: State, a: string)
    requires s1.assets.Keys == s2.assets.Keys
    requires forall x :: x in s1.assets ==> s1.assets[x].lines == s2.assets[x].lines
    ensures HitsNow(c, s1, a) == HitsNow(c, s2, a)
  {
    if a in s1.assets {
      forall i | 0 <= i < |c.tasks|
        ensures HitsTask(c, i, s1.assets, a) <==> HitsTask(c, i, s2.assets, a)
      {
        assert forall x :: x in s1.assets ==> Window(s1.assets, x) == Window(s2.assets, x);
        assert forall x :: x in s2.assets ==> Window(s1.assets, x) == Window(s2.assets, x);
      }
    }
  }

  function LineCount(es: seq<Event>, a: string): nat {
    |Complete(Strip(Stream(es, a)))|
  }

  /** If some piece completed a line, whatever the final windows hit has been passed on the way. */
  lemma {:induction false} PiecesHit(c: Config, es: seq<Event>, a: string, chunks: seq<Text>)
    requires CleanRun(es + Pieces(a, chunks))
    ensures var s := Run(c, es + Pieces(a, chunks));
            && Run(c, es).passed <= s.passed
            && s.assets.Keys == Run(c, es).assets.Keys + (if chunks == [] then {} else {a})
            && LineCount(es, a) <= LineCount(es + Pieces(a, chunks), a)
            && (LineCount(es, a) < LineCount(es + Pieces(a, chunks), a) ==> HitsNow(c, s, a) <= s.passed)
  {
    if chunks == [] {
      assert es + [] == es;
    } else {
      var init, e := chunks[..|chunks| - 1], Event(a, chunks[|chunks| - 1]);
      var mid := es + Pieces(a, init);
      PiecesSnoc(es, a, chunks);
      CleanRunSnoc(mid, e);
      PiecesHit(c, es, a, init);
      LastPieceHits(c, mid, e);
      assert init == [] ==> mid == es;
    }
  }

  lemma LastPieceHits(c: Config, es: seq<Event>, e: Event)
    requires CleanRun(es + [e])
    ensures var s, s' := Run(c, es), Run(c, es + [e]);
            && s.passed <= s'.passed
            && s'.assets.Keys == s.assets.Keys + {e.asset}
            && LineCount(es, e.asset) <= LineCount(es + [e], e.asset)
            && (LineCount(es, e.asset) < LineCount(es + [e], e.asset) ==> HitsNow(c, s', e.asset) <= s'.passed)
            && (LineCount(es, e.asset) == LineCount(es + [e], e.asset) && e.asset in s.assets ==>
                  HitsNow(c, s', e.asset) == HitsNow(c, s, e.asset))
  {
    CleanRunSnoc(es, e);
    RunSnoc(c, es, e);
    StreamSnoc(es, e, e.asset);
    BuffersFollowStreams(c, es);
    RunMissesNothing(c, es);
    var s, s' := Run(c, es), Run(c, es + [e]);
    var b := BufferAt(s.assets, e.asset);
    assert b == BufferOf(Strip(Stream(es, e.asset)));
    BufferStep(Stream(es, e.asset), e.chunk);
    LinesGrow(Stream(es, e.asset), e.chunk);
    LinesKept(b, e.chunk);
    if !CompletesLine(b, e.chunk) && e.asset in s.assets {
      HitsSeeLines(c, s', s, e.asset);
    }
  }

  lemma LinesGrow(stream: Text, chunk: Text)
    requires Clean(Strip(stream + chunk))
    ensures |Complete(Strip(stream))| <= |Complete(Strip(stream + chunk))|
  {
    StripCleanPrefix(stream, chunk);
    StripStep(stream, chunk);
    var t := Strip(stream);
    StripAfterHead(t, chunk);
    HeadLines(t);
    CutAppend(Head(t), Strip(Unfinished(t) + chunk));
  }

  /** Cutting deliveries into smaller events never loses a pass. */
  lemma {:induction false} RefinedRun(c: Config, ds: seq<Delivery>)
    requires CleanRun(Fine(ds))
    requires forall i :: 0 <= i < |ds| ==> ds[i].chunks != []
    ensures Run(c, Coarse(ds)).assets == Run(c, Fine(ds)).assets
    ensures Run(c, Coarse(ds)).passed <= Run(c, Fine(ds)).passed
  {
    if ds != [] {
      var init, d := ds[..|ds| - 1], ds[|ds| - 1];
      PiecesCleanPrefix(Fine(init), d.asset, d.chunks);
      RefinedRun(c, init);
      CoarseIsClean(ds);
      forall x
        ensures Stream(Coarse(init), x) == Stream(Fine(init), x)
      {
        SameStreams(init, x);
      }
      CoarseStep(c, Coarse(init), Fine(init), d);
    }
  }

  /** Cutting deliveries into smaller events never loses a pass: the grade map is pointwise at
      least as large. */
  lemma RefiningKeepsPasses(c: Config, ds: seq<Delivery>)
    requires CleanRun(Fine(ds))
    requires forall i :: 0 <= i < |ds| ==> ds[i].chunks != []
    ensures AtMost(GradesOf(c.tasks, Run(c, Coarse(ds)).passed), GradesOf(c.tasks, Run(c, Fine(ds)).passed))
  {
    RefinedRun(c, ds);
    PassedAreTasks(c, Fine(ds));
    GradesGrow(c.tasks, Run(c, Coarse(ds)).passed, Run(c, Fine(ds)).passed);
  }

  lemma {:induction false} PiecesCleanPrefix(es: seq<Event>, a: string, chunks: seq<Text>)
    requires CleanRun(es + Pieces(a, chunks))
    ensures CleanRun(es)
  {
    forall x
      ensures Clean(Strip(Stream(es, x)))
    {
      StreamOfPieces(es, a, chunks, x);
      StripCleanPrefix(Stream(es, x), if a == x then Flatten(chunks) else []);
    }
  }

  lemma CoarseIsClean(ds: seq<Delivery>)
    requires CleanRun(Fine(ds))
    ensures CleanRun(Coarse(ds))
  {
    forall x
      ensures Clean(Strip(Stream(Coarse(ds), x)))
    {
      SameStreams(ds, x);
    }
  }

  lemma CoarseStep(c: Config, coarse: seq<Event>, fine: seq<Event>, d: Delivery)
    requires d.chunks != []
    requires forall x :: Stream(coarse, x) == Stream(fine, x)
    requires Run(c, coarse).assets == Run(c, fine).assets && Run(c, coarse).passed <= Run(c, fine).passed
    requires CleanRun(fine + Pieces(d.asset, d.chunks))
    requires CleanRun(coarse + [Event(d.asset, Flatten(d.chunks))])
    ensures var s1 := Run(c, coarse + [Event(d.asset, Flatten(d.chunks))]);
            var s2 := Run(c, fine + Pieces(d.asset, d.chunks));
            s1.assets == s2.assets && s1.passed <= s2.passed
  {
    var e := Event(d.asset, Flatten(d.chunks));
    var fine' := fine + Pieces(d.asset, d.chunks);
    PiecesHit(c, fine, d.asset, d.chunks);
    LastPieceHits(c, coarse, e);
    forall x
      ensures Stream(coarse + [e], x) == Stream(fine', x)
    {
      StreamOfPieces(fine, d.asset, d.chunks, x);
      StreamSnoc(coarse, e, x);
    }
    SameStreamsSameAssets(c, coarse + [e], fine');
    PassedByStep(c, coarse, e);
  }

  lemma SameStreamsSameAssets(c: Config, es1: seq<Event>, es2: seq<Event>)
    requires CleanRun(es1) && CleanRun(es2)
    requires forall x :: Stream(es1, x) == Stream(es2, x)
    requires Run(c, es1).assets.Keys == Run(c, es2).assets.Keys
    ensures Run(c, es1).assets == Run(c, es2).assets
  {
    BuffersFollowStreams(c, es1);
    BuffersFollowStreams(c, es2);
    var m1, m2 := Run(c, es1).assets, Run(c, es2).assets;
    forall x | x in m1
      ensures m1[x] == m2[x]
    {
      assert BufferAt(m1, x) == BufferOf(Strip(Stream(es1, x)));
      assert BufferAt(m2, x) == BufferOf(Strip(Stream(es2, x)));
    }
  }

  /** What an event adds to the passed tasks, if the line count of its asset grows. */
  lemma PassedByStep(c: Config, es: seq<Event>, e: Event)
    requires CleanRun(es + [e])
    ensures var s, s' := Run(c, es), Run(c, es + [e]);
            s'.passed == s.passed +
            if LineCount(es, e.asset) < LineCount(es + [e], e.asset) then HitsNow(c, s', e.asset) else {}
  {
    CleanRunSnoc(es, e);
    RunSnoc(c, es, e);
    StreamSnoc(es, e, e.asset);
    BuffersFollowStreams(c, es);
    assert BufferAt(Run(c, es).assets, e.asset) == BufferOf(Strip(Stream(es, e.asset)));
    BufferStep(Stream(es, e.asset), e.chunk);
  }
}
