/** Runs after which a wanted attempt is not provisioned any more. */
module ForgottenLab {
  import opened Options
  import opened Lifecycle
  import opened Creation
  import opened CacheWitness

  lemma Then(ls: seq<Label>, s: State, l: Label, s': State) returns (ls': seq<Label>)
    requires Exec(START, ls) == s && Next(s, l) == s'
    ensures Exec(START, ls') == s'
  {
    ls' := ls + [l];
    ExecSnoc(START, ls, l);
  }

  /** Two steps suffice: the object is applied and deleted by somebody before it has its finalizer. Nobody
      asked for the attempt to go, but the deletion is queued, and its patch will decommission it. */
  lemma DeletedByHand() returns (ls: seq<Label>)
    ensures var s := Exec(START, ls);
            s.rec.desired == Provisioned && DeletionQueued(s) && !Hopeful(s)
  {
    var e := Env(0, 0, false, false, 0, 60, Unset, None, []);
    var s1 := START.(env := Some(e), log := [Upsert(e)], due := true, nextUid := 1, nextRv := 1);
    var s2 := s1.(env := None, log := [Upsert(e), Deleted]);
    assert Exec(START, []) == START;
    ls := Then([], START, Resync(true, 0, 60), s1);
    ls := Then(ls, s1, AdminDelete, s2);
    QueuedIn(s2, 1);
  }

  const DELETING := SYNCED_STATE.(env := Some(V3), log := LOG + [Upsert(V3)], nextRv := 4)

  const MARKING := DELETING.(ns := Closing, worker := Marking(V3), due := false)

  const EMPTIED := DELETING.(env := Some(V4), ns := Absent, log := LOG + [Upsert(V3), Upsert(V4)], nextRv := 5)

  const GONE := EMPTIED.(env := None, worker := Idle(Finished), log := LOG + [Upsert(V3), Upsert(V4), Deleted])

  lemma Delete() returns (ls: seq<Label>)
    ensures Exec(START, ls) == MARKING
  {
    ls := Sync();
    var s1 := DELETING.(worker := Leaving(V3), due := false);
    var s2 := s1.(worker := Emptying(V3));
    ls := Then(ls, SYNCED_STATE, AdminDelete, DELETING);
    ls := Then(ls, DELETING, WORK, s1);
    ls := Then(ls, s1, WORK, s2);
    ls := Then(ls, s2, WORK, MARKING);
  }

  lemma Empty() returns (ls: seq<Label>)
    ensures Exec(START, ls) == EMPTIED
  {
    ls := Delete();
    assert MARKING.log + [Upsert(V4)] == EMPTIED.log;
    ls := Then(ls, MARKING, WORK, EMPTIED.(ns := Closing));
    ls := Then(ls, EMPTIED.(ns := Closing), NamespaceGone, EMPTIED);
  }

  lemma Release() returns (ls: seq<Label>)
    ensures Exec(START, ls) == GONE
  {
    ls := Empty();
    var s1 := EMPTIED.(worker := Leaving(V4), due := false);
    var s2 := s1.(worker := Releasing(V4));
    assert s2.log + [Deleted] == GONE.log;
    ls := Then(ls, EMPTIED, WORK, s1);
    ls := Then(ls, s1, WORK, s2);
    ls := Then(ls, s2, WORK, GONE);
  }

  /** The object is gone and all events are handled, but the patches about it failed: the record says that the
      attempt is provisioned, as wanted, and no resync will look at it again. */
  lemma NobodyNotices() returns (ls: seq<Label>)
    ensures var s := Exec(START, ls);
            s.rec == Record(Provisioned, Provisioned) && s.env.None? && s.seen == |s.log| && !Hopeful(s)
  {
    ls := Release();
    var s1, s2, s3 := GONE.(seen := 4, synced := Some(3)), GONE.(seen := 5, synced := Some(3)), GONE.(seen := 6, synced := None);
    assert GONE.past + {ALIVE} == GONE.past;
    ls := Then(ls, GONE, Upstream(true), s1);
    ls := Then(ls, s1, Upstream(false), s2);
    ls := Then(ls, s2, Upstream(false), s3);
  }
}
