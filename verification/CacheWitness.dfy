/** A run of the machine on which the upstream cache and a cache-free reconciler differ. */
module CacheWitness {
  import opened Options
  import opened Lifecycle
  import opened Upstream
  import opened UpstreamRuns

  /** A run so far, with where it leads and what it was for the record. */
  ghost predicate Goes(ls: seq<Label>, s: State, items: seq<Item>) {
    Exec(START, ls) == s && ItemsFrom(START, ls) == items
  }

  lemma {:induction false} OneMoreLabel(s: State, ls: seq<Label>, l: Label)
    ensures Exec(s, ls + [l]) == Next(Exec(s, ls), l)
    ensures ItemsFrom(s, ls + [l]) == ItemsFrom(s, ls) + ItemsOf(Exec(s, ls), l)
    decreases |ls|
  {
    if ls == [] {
      assert ls + [l] == [l] && [l][1..] == [];
      assert Exec(s, [l]) == Exec(Next(s, l), []);
      assert ItemsFrom(s, [l]) == ItemsOf(s, l) + [];
    } else {
      assert (ls + [l])[1..] == ls[1..] + [l];
      OneMoreLabel(Next(s, ls[0]), ls[1..], l);
      var rest := ItemsFrom(Next(s, ls[0]), ls[1..]);
      var last := ItemsOf(Exec(s, ls), l);
      assert ItemsOf(s, ls[0]) + (rest + last) == ItemsOf(s, ls[0]) + rest + last;
    }
  }

  lemma Go(ls: seq<Label>, s: State, items: seq<Item>, l: Label, s': State, more: seq<Item>) returns (ls': seq<Label>)
    requires Goes(ls, s, items) && Next(s, l) == s' && ItemsOf(s, l) == more
    ensures Goes(ls', s', items + more)
  {
    ls' := ls + [l];
    OneMoreLabel(START, ls, l);
  }

  lemma GoOn(ls: seq<Label>, s: State, items: seq<Item>, l: Label, s': State) returns (ls': seq<Label>)
    requires Goes(ls, s, items) && Next(s, l) == s' && ItemsOf(s, l) == []
    ensures Goes(ls', s', items)
  {
    ls' := Go(ls, s, items, l, s', []);
    assert items + [] == items;
  }

  const WORK := Operate(true, 0, [])

  /** The object as created, with its finalizer, with its first status, marked for deletion, terminating. */
  const V0 := Env(0, 0, false, false, 0, 1, Unset, None, [])
  const V1 := V0.(rv := 1, finalizer := true)
  const V2 := V1.(rv := 2, phase := Ready, expiresAt := Some(1))
  const V3 := V2.(rv := 3, deleting := true)
  const V4 := V3.(rv := 4, phase := Terminating)

  const LOG := [Upsert(V0), Upsert(V1), Upsert(V2)]
  const SYNCED := [Informer(Upsert(V0), true), Informer(Upsert(V1), true), Informer(Upsert(V2), true)]

  const ALIVE := Record(Provisioned, Provisioned)
  const ASKED := Record(Provisioned, Decommissioned)
  const BOTH := Record(Decommissioned, Decommissioned)

  const CREATED_STATE := State(
    CREATED, {CREATED}, Some(V2), Active, LOG, 0, None, Idle(RunAgain), true, 1, 3)

  const SYNCED_STATE := State(
    ALIVE, {CREATED, ALIVE}, Some(V2), Active, LOG, 3, Some(2), Idle(RunAgain), true, 1, 3)

  /** The informer's resync has queued the synced version again, then a user asked to decommission
      and the object was marked for deletion. */
  const DELETED_STATE := State(
    ASKED, {CREATED, ALIVE, ASKED}, Some(V3), Active, LOG + [Upsert(V2), Upsert(V3)], 3, Some(2),
    Idle(RunAgain), true, 1, 4)

  const GONE_STATE := State(
    ASKED, {CREATED, ALIVE, ASKED}, None, Absent, LOG + [Upsert(V2), Upsert(V3), Upsert(V4), Deleted], 3, Some(2),
    Idle(Finished), true, 1, 5)

  lemma Create() returns (ls: seq<Label>)
    ensures Goes(ls, CREATED_STATE, [])
  {
    var s1 := START.(env := Some(V0), log := [Upsert(V0)], due := true, nextUid := 1, nextRv := 1);
    var s2 := s1.(worker := Ensuring(V0), due := false);
    var s3 := s2.(env := Some(V1), log := [Upsert(V0), Upsert(V1)], worker := Placing(V1), due := true, nextRv := 2);
    var s4 := s3.(ns := Active, worker := Dating(V1));
    var s5 := s4.(worker := Reporting(V1.(expiresAt := Some(1))));
    assert Goes([], START, []);
    ls := GoOn([], START, [], AdminApply(0, 1), s1);
    ls := GoOn(ls, s1, [], WORK, s2);
    ls := GoOn(ls, s2, [], WORK, s3);
    ls := GoOn(ls, s3, [], WORK, s4);
    ls := GoOn(ls, s4, [], WORK, s5);
    ls := GoOn(ls, s5, [], WORK, CREATED_STATE);
  }

  lemma Sync() returns (ls: seq<Label>)
    ensures Goes(ls, SYNCED_STATE, SYNCED)
  {
    ls := Create();
    var s1, s2 := CREATED_STATE.(seen := 1), CREATED_STATE.(seen := 2);
    ls := Go(ls, CREATED_STATE, [], Upstream(true), s1, [Informer(Upsert(V0), true)]);
    ls := Go(ls, s1, [Informer(Upsert(V0), true)], Upstream(true), s2, [Informer(Upsert(V1), true)]);
    ls := Go(ls, s2, [Informer(Upsert(V0), true), Informer(Upsert(V1), true)], Upstream(true), SYNCED_STATE,
             [Informer(Upsert(V2), true)]);
  }

  lemma RequestDeletion() returns (ls: seq<Label>)
    ensures Goes(ls, DELETED_STATE, SYNCED + [Decommission])
  {
    ls := Sync();
    var s1 := SYNCED_STATE.(log := LOG + [Upsert(V2)]);
    var s2 := s1.(rec := ASKED, past := {CREATED, ALIVE, ASKED});
    ls := GoOn(ls, SYNCED_STATE, SYNCED, InformerResync, s1);
    ls := Go(ls, s1, SYNCED, UserDecommission, s2, [Decommission]);
    assert s1.log + [Upsert(V3)] == LOG + [Upsert(V2), Upsert(V3)];
    ls := GoOn(ls, s2, SYNCED + [Decommission], Resync(true, 0, 1), DELETED_STATE);
  }

  const EMPTYING_STATE := DELETED_STATE.(ns := Closing, worker := Marking(V3), due := false)

  lemma EmptyNamespace() returns (ls: seq<Label>)
    ensures Goes(ls, EMPTYING_STATE, SYNCED + [Decommission])
  {
    ls := RequestDeletion();
    var items := SYNCED + [Decommission];
    var s1 := DELETED_STATE.(worker := Leaving(V3), due := false);
    var s2 := s1.(worker := Emptying(V3));
    ls := GoOn(ls, DELETED_STATE, items, WORK, s1);
    ls := GoOn(ls, s1, items, WORK, s2);
    ls := GoOn(ls, s2, items, WORK, EMPTYING_STATE);
  }

  const TERMINATED_STATE := DELETED_STATE.(
    env := Some(V4), ns := Absent, log := LOG + [Upsert(V2), Upsert(V3), Upsert(V4)], nextRv := 5)

  lemma Terminate() returns (ls: seq<Label>)
    ensures Goes(ls, TERMINATED_STATE, SYNCED + [Decommission])
  {
    ls := EmptyNamespace();
    var s1 := TERMINATED_STATE.(ns := Closing);
    assert EMPTYING_STATE.log + [Upsert(V4)] == TERMINATED_STATE.log;
    ls := GoOn(ls, EMPTYING_STATE, SYNCED + [Decommission], WORK, s1);
    ls := GoOn(ls, s1, SYNCED + [Decommission], NamespaceGone, TERMINATED_STATE);
  }

  lemma Finish() returns (ls: seq<Label>)
    ensures Goes(ls, GONE_STATE, SYNCED + [Decommission])
  {
    ls := Terminate();
    var items := SYNCED + [Decommission];
    var s1 := TERMINATED_STATE.(worker := Leaving(V4), due := false);
    var s2 := s1.(worker := Releasing(V4));
    assert s2.log + [Deleted] == GONE_STATE.log;
    ls := GoOn(ls, TERMINATED_STATE, items, WORK, s1);
    ls := GoOn(ls, s1, items, WORK, s2);
    ls := GoOn(ls, s2, items, WORK, GONE_STATE);
  }

  const WITNESS := SYNCED + [Decommission, Mark, Informer(Upsert(V2), true)]

  lemma SkipAfterMark() returns (ls: seq<Label>)
    ensures Goes(ls, GONE_STATE.(rec := BOTH, past := GONE_STATE.past + {BOTH}, seen := 4), WITNESS)
  {
    ls := Finish();
    var items := SYNCED + [Decommission];
    var s1 := GONE_STATE.(rec := BOTH, past := GONE_STATE.past + {BOTH});
    ls := Go(ls, GONE_STATE, items, Resync(true, 0, 1), s1, [Mark]);
    ls := Go(ls, s1, items + [Mark], Upstream(true), s1.(seen := 4), [Informer(Upsert(V2), true)]);
    assert items + [Mark] + [Informer(Upsert(V2), true)] == WITNESS;
  }

  lemma CachedWitness(r: Attempt)
    ensures CachedRun(r, WITNESS[..5]).lastRV == Some(2)
  {
    ModeSnoc(r, [], SYNCED[0]);
    ModeSnoc(r, SYNCED[..1], SYNCED[1]);
    ModeSnoc(r, SYNCED[..2], SYNCED[2]);
    ModeSnoc(r, SYNCED, Decommission);
    ModeSnoc(r, SYNCED + [Decommission], Mark);
    assert [] + [SYNCED[0]] == SYNCED[..1] && SYNCED[..1] + [SYNCED[1]] == SYNCED[..2] && SYNCED[..2] + [SYNCED[2]] == SYNCED;
    assert WITNESS[..5] == SYNCED + [Decommission] + [Mark];
  }

  /** A run of the machine on which the cache matters: a version queued again by the informer's resync
      arrives after the record was marked. It is skipped, and the record stays decommissioned, where
      a patch would have shown the attempt provisioned until the later events come. */
  lemma CacheMatters(r: Attempt) returns (ls: seq<Label>)
    requires IsNew(r)
    ensures var items := ItemsFrom(START, ls);
            CachedRun(r, items).record.current == Decommissioned && PlainRun(r, items).current == Provisioned
  {
    ls := SkipAfterMark();
    CacheIsExactOnRunsIff(r, ls);
    CachedWitness(r);
    PlainWitness(r);
  }

  lemma PlainWitness(r: Attempt)
    ensures PlainRun(r, WITNESS).current == Provisioned
  {
    ModeSnoc(r, WITNESS[..5], WITNESS[5]);
    assert WITNESS[..5] + [WITNESS[5]] == WITNESS;
  }
}
