/** Graded tasks, built from extracted exercises. */
module GradeKeys {
  import opened Exercises
  import opened Grading
  import opened RoundTrip

  /** One task for each exercise; an exercise without an asset is lab-wide. */
  function TasksOf(es: seq<Exercise>): (r: seq<Task>)
    ensures |r| == |es|
    ensures forall i :: 0 <= i < |es| ==> r[i] == Task(es[i].id, es[i].fields.template, OrEmpty(es[i].fields.asset))
  {
    seq(|es|, i requires 0 <= i < |es| => Task(es[i].id, es[i].fields.template, OrEmpty(es[i].fields.asset)))
  }

  lemma {:induction false} IdsCount(tasks: seq<Task>)
    requires DistinctIds(tasks)
    ensures |Ids(tasks)| == |tasks|
  {
    if tasks != [] {
      var init, last := tasks[..|tasks| - 1], tasks[|tasks| - 1];
      IdsCount(init);
      assert forall i :: 0 <= i < |init| ==> init[i] == tasks[i];
      assert Ids(tasks) == Ids(init) + {last.id};
      assert last.id !in Ids(init);
    }
  }

  /** Tasks built from a lab's exercises have distinct ids, and the grade map has exactly one key for
      each exercise, whatever is passed. */
  lemma OneKeyPerExercise(parse: Parser, content: seq<string>, passed: set<string>)
    requires Extract(parse, content).Ok?
    ensures var es := Extract(parse, content).value;
            && DistinctIds(TasksOf(es))
            && |GradesOf(TasksOf(es), passed).Keys| == |es|
            && forall i :: 0 <= i < |es| ==> es[i].id in GradesOf(TasksOf(es), passed)
  {
    var es := Extract(parse, content).value;
    ExtractedIds(parse, content);
    var tasks := TasksOf(es);
    assert DistinctIds(tasks);
    IdsCount(tasks);
    assert GradesOf(tasks, passed).Keys == Ids(tasks);
    assert forall i :: 0 <= i < |es| ==> tasks[i].id == es[i].id;
  }
}
