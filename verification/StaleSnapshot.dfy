/** The snapshot is taken under the lock and written after it: a run on which it arrives stale. */
module StaleSnapshot {
  import opened Ansi
  import opened Grading
  import opened Broadcast
  import opened Hiding
  import opened Options

  const LETTER: Text := [65]

  /** One lab-wide task that waits for a letter, and the line that brings it. */
  const EASY := Watching(LETTER)

  const LINE := Event("asset", Line(LETTER))

  lemma EasyGrades(passed: set<string>)
    ensures Ids(EASY.tasks) == {"task"}
    ensures GradesOf(EASY.tasks, passed) == map["task" := "task" in passed]
  {
    assert EASY.tasks[0].id == "task";
  }

  lemma LinePasses()
    ensures Step(EASY, START, LINE).passed == {"task"}
  {
    PassesAlone(LETTER);
    StepPassesOwn(EASY, 0, START, LINE);
    StepPassed(EASY, START, LINE);
    EasyGrades({});
  }

  lemma ExecSnoc(c: Config, ls: seq<Label>, l: Label)
    ensures Exec(c, ls + [l]) == Next(c, Exec(c, ls), l)
  {
    assert (ls + [l])[..|ls|] == ls;
  }

  const JOIN := [Register(0)]
  const PUSH := JOIN + [Ingest(LINE, {})]
  const LATE := PUSH + [SnapshotWritten(0)]

  lemma Joined()
    ensures Exec(EASY, JOIN) == World(START, {0}, map[0 := Wire(map["task" := false], [], None)], {})
  {
    ExecSnoc(EASY, [], Register(0));
    assert [] + [Register(0)] == JOIN;
    EasyGrades({});
  }

  lemma Pushed()
    ensures var w := Exec(EASY, PUSH);
            && w.grading.passed == {"task"}
            && w.clients == {0} && w.lost == {}
            && w.wires == map[0 := Wire(map["task" := false], [map["task" := true]], None)]
  {
    Joined();
    LinePasses();
    ExecSnoc(EASY, JOIN, Ingest(LINE, {}));
    EasyGrades({"task"});
    assert [] + [map["task" := true]] == [map["task" := true]];
  }

  lemma LateWire(snapshot: Grades, push: Grades)
    ensures Wire(snapshot, [push], Some(1)).Received() == [push, snapshot]
  {
    assert [push][..1] == [push] && [push][1..] == [];
  }

  lemma WriteLate(c: Config, w: World, snapshot: Grades, push: Grades)
    requires w.wires == map[0 := Wire(snapshot, [push], None)] && w.lost == {}
    ensures Next(c, w, SnapshotWritten(0)) == w.(wires := map[0 := Wire(snapshot, [push], Some(1))])
  {
  }

  /** A client joins, an event passes the task and is pushed to it, then its snapshot is written: the
      last message it gets says that nothing is passed, though it has been told better before. */
  lemma LastMessageCanBeStale()
    ensures var w := Exec(EASY, LATE);
            && 0 in w.clients && 0 in w.wires
            && w.wires[0].Received() == [map["task" := true], map["task" := false]]
            && GradesOf(EASY.tasks, w.grading.passed) == map["task" := true]
  {
    Pushed();
    ExecSnoc(EASY, PUSH, SnapshotWritten(0));
    WriteLate(EASY, Exec(EASY, PUSH), map["task" := false], map["task" := true]);
    LateWire(map["task" := false], map["task" := true]);
    EasyGrades({"task"});
  }
}
