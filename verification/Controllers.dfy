/** The controllers' own code, call by call, against the step machine of `Lifecycle`: other actors
    may step between any two calls of the operator. */
module Controllers {
  import opened Options
  import opened Lifecycle
  import opened Creation
  import opened Expiry

  /** What others do before a call of the operator, whether that call succeeds, and what it finds:
      the time and what there is to report of the assets. */
  datatype Turn = Turn(others: seq<Label>, ok: bool, now: int, reports: seq<AssetStatus>) {
    function Step(): Label {
      Operate(ok, now, reports)
    }

    predicate Fair() {
      OthersOnly(others)
    }

    function Labels(): seq<Label> {
      others + [Step()]
    }
  }

  /** Turns one after the other. */
  function Labels(turns: seq<Turn>): seq<Label> {
    if turns == [] then [] else Labels(turns[..|turns| - 1]) + turns[|turns| - 1].Labels()
  }

  predicate OthersOnly(ls: seq<Label>) {
    forall i :: 0 <= i < |ls| ==> !ls[i].Operate?
  }

  /** Others do not touch what the operator remembers and take nothing from its queue. */
  lemma {:induction false} OthersKeepWorker(s: State, ls: seq<Label>)
    requires OthersOnly(ls)
    ensures Exec(s, ls).worker == s.worker && (s.due ==> Exec(s, ls).due)
    decreases |ls|
  {
    if ls != [] {
      OthersKeepWorker(Next(s, ls[0]), ls[1..]);
    }
  }

  /** One call of the operator after some steps of others. */
  function Call(s: State, t: Turn): State {
    OperatorStep(Exec(s, t.others), t.Step())
  }

  lemma CallIsRun(s: State, t: Turn)
    ensures Call(s, t) == Exec(s, t.Labels())
  {
    ExecAppend(s, t.others, [t.Step()]);
    var s' := Exec(s, t.others);
    assert Exec(s', [t.Step()]) == Exec(Next(s', t.Step()), []);
  }

  lemma OneMoreTurn(s: State, turns: seq<Turn>, t: Turn)
    ensures Exec(s, Labels(turns + [t])) == Call(Exec(s, Labels(turns)), t)
  {
    assert (turns + [t])[..|turns|] == turns;
    ExecAppend(s, Labels(turns), t.Labels());
    CallIsRun(Exec(s, Labels(turns)), t);
  }

  /** The calls of these turns, one after the other. */
  function After(s: State, turns: seq<Turn>): State {
    if turns == [] then s else Call(After(s, turns[..|turns| - 1]), turns[|turns| - 1])
  }

  lemma AfterSnoc(s: State, turns: seq<Turn>, t: Turn)
    ensures After(s, turns + [t]) == Call(After(s, turns), t)
  {
    assert (turns + [t])[..|turns|] == turns;
  }

  lemma {:induction false} AfterCons(s: State, t: Turn, turns: seq<Turn>)
    ensures After(s, [t] + turns) == After(Call(s, t), turns)
    decreases |turns|
  {
    if turns == [] {
      assert [t] + turns == [] + [t];
      AfterSnoc(s, [], t);
    } else {
      var init, last := turns[..|turns| - 1], turns[|turns| - 1];
      AfterCons(s, t, init);
      assert [t] + turns == ([t] + init) + [last];
      AfterSnoc(s, [t] + init, last);
    }
  }

  /** Turns are a run of the machine: the steps of others in them, and for each its own step. */
  lemma {:induction false} AfterIsRun(s: State, turns: seq<Turn>)
    ensures After(s, turns) == Exec(s, Labels(turns))
  {
    if turns != [] {
      var init, last := turns[..|turns| - 1], turns[|turns| - 1];
      AfterIsRun(s, init);
      OneMoreTurn(s, init, last);
      assert init + [last] == turns;
    }
  }

  /** The turns a deletion takes, by its outcome. */
  predicate DeletionTurns(turns: seq<Turn>, look: Turn, act: Turn, mark: Turn, o: Outcome) {
    match o
    case Finished => turns == [look] || turns == [look, act]
    case Failed => turns == [look] || turns == [look, act]
    case RunAgain => turns == [look, mark] || turns == [look, act, mark]
  }

  /** The turns a creation takes: in order, as far as it gets. */
  predicate CreationTurns(turns: seq<Turn>, finalize: Turn, place: Turn, date: Turn, report: Turn, o: Outcome) {
    match o
    case Finished => turns == [finalize, place, date]
    case Failed =>
      turns == [finalize] || turns == [finalize, place] || turns == [finalize, place, date] || turns == [finalize, place, date, report]
    case RunAgain => turns == [finalize, place, date, report]
  }

  /** The object is now `e`, under a new version and with an event. */
  ghost predicate Updated(s: State, s': State, e: Env) {
    s'.env == Some(e.(rv := s.nextRv)) && s'.log == s.log + [Upsert(e.(rv := s.nextRv))] && s'.due
  }

  /** The same, but nothing happens to an object that is `e` already. */
  ghost predicate Written(s: State, s': State, e: Env)
    requires s.env.Some?
  {
    if e == s.env.value then s'.env == s.env && s'.log == s.log else Updated(s, s', e)
  }

  /** The phase told of assets in this state. */
  ghost predicate Told(phase: Phase, reports: seq<AssetStatus>) {
    && (phase == Ready <==> forall i :: 0 <= i < |reports| ==> reports[i].ready)
    && (phase == Pending <==> reports != [] && forall i :: 0 <= i < |reports| ==> !reports[i].ready)
    && phase in {Ready, Pending, Degraded}
  }

  lemma PhaseTold(reports: seq<AssetStatus>)
    ensures Told(PhaseFor(reports), reports)
  {
    Provisioning.CountMeans(reports);
  }

  // ---- What the calls of a deletion do ----

  lemma LookDoes(s: State, t: Turn)
    requires s.worker.Leaving? && t.Fair()
    ensures var before, s', copy := Exec(s, t.others), Call(s, t), s.worker.copy;
            && s'.env == before.env && s'.ns == before.ns && s'.log == before.log
            && s'.worker == if !copy.finalizer then Idle(Finished) else if !t.ok then Idle(Failed)
                            else if before.ns == Absent then Releasing(copy)
                            else if before.ns == Active then Emptying(copy) else Marking(copy)
  {
    OthersKeepWorker(s, t.others);
  }

  lemma DeleteNamespaceDoes(s: State, t: Turn)
    requires s.worker.Emptying? && t.Fair()
    ensures var before, s' := Exec(s, t.others), Call(s, t);
            && s'.env == before.env && s'.log == before.log
            && if t.ok && before.ns != Absent then s'.ns == Closing && s'.worker == Marking(s.worker.copy)
               else s'.ns == before.ns && s'.worker == Idle(Failed)
  {
    OthersKeepWorker(s, t.others);
  }

  lemma MarkDoes(s: State, t: Turn)
    requires s.worker.Marking? && t.Fair()
    ensures var before, s', copy := Exec(s, t.others), Call(s, t), s.worker.copy;
            && s'.worker == Idle(RunAgain) && s'.ns == before.ns
            && if t.ok && copy.phase != Terminating && Current(before, copy)
               then Updated(before, s', before.env.value.(phase := Terminating))
               else s'.env == before.env && s'.log == before.log
  {
    OthersKeepWorker(s, t.others);
  }

  lemma ReleaseDoes(s: State, t: Turn)
    requires s.worker.Releasing? && t.Fair()
    ensures var before, s' := Exec(s, t.others), Call(s, t);
            && s'.ns == before.ns
            && if t.ok && Current(before, s.worker.copy)
               then s'.worker == Idle(Finished) && s'.env.None? && s'.log == before.log + [Deleted]
               else s'.worker == Idle(Failed) && s'.env == before.env && s'.log == before.log
  {
    OthersKeepWorker(s, t.others);
  }

  class Cluster {
    var state: State

    constructor ()
      ensures state == START
    {
      state := START;
    }

    // ---- attempt-controller ----

    method ReconcileAttempt(rec: Record, ok: bool, now: int, ttl: int)
      modifies this
      ensures state == Lifecycle.ReconcileAttempt(old(state), rec.desired, ok, now, ttl)
      ensures !ok ==> state == old(state)
      ensures ok && rec.desired != Decommissioned ==> Applied(old(state), state, now, ttl)
      ensures ok && rec.desired == Decommissioned ==> Removed(old(state), state)
    {
      if rec.desired == Decommissioned {
        if !ok {
          return;
        }
        if state.env.None? {
          state := SetRecord(state, state.rec.(current := Decommissioned));
        } else {
          state := ApiDelete(state);
        }
        return;
      }
      if ok {
        state := ApiApply(state, now, ttl);
      }
    }

    /** The subscription's handler: a record that is not to be decommissioned is fetched anew. */
    method OnRecordEvent(event: Record, fetched: Fetched, ok: bool, now: int, ttl: int)
      modifies this
      ensures state == HandleRealtime(old(state), event, fetched, ok, now, ttl)
    {
      var rec := event;
      if rec.desired == Decommissioned && rec.current == Decommissioned {
        return;
      }
      if rec.desired != Decommissioned {
        if fetched == Missing {
          rec := Record(rec.current, Decommissioned);
        } else if fetched == Unreachable {
          return;
        } else {
          rec := state.rec;
        }
      }
      ReconcileAttempt(rec, ok, now, ttl);
    }

    method ResyncAttempts(ok: bool, now: int, ttl: int)
      modifies this
      ensures state == Next(old(state), Resync(ok, now, ttl))
    {
      if state.rec.current != state.rec.desired {
        ReconcileAttempt(state.rec, ok, now, ttl);
      }
    }

    // ---- labenv-operator ----

    method Others(ls: seq<Label>)
      requires OthersOnly(ls)
      modifies this
      ensures state == Exec(old(state), ls)
      ensures state.worker == old(state).worker && (old(state).due ==> state.due)
    {
      OthersKeepWorker(state, ls);
      for i := 0 to |ls|
        invariant Exec(state, ls[i..]) == Exec(old(state), ls)
      {
        assert ls[i..][1..] == ls[i + 1..];
        state := Next(state, ls[i]);
      }
    }

    method RequestNamespaceDeletion(t: Turn) returns (ok: bool)
      requires state.worker.Emptying? && t.Fair()
      modifies this
      ensures state == Call(old(state), t)
      ensures state.worker == if ok then Marking(old(state).worker.copy) else Idle(Failed)
    {
      Others(t.others);
      var copy := state.worker.copy;
      ok := t.ok && state.ns != Absent;
      state := if ok then state.(ns := Closing, worker := Marking(copy)) else Rest(state, Failed);
    }

    /** A status update that fails is only logged. */
    method MarkTerminating(t: Turn)
      requires state.worker.Marking? && t.Fair()
      modifies this
      ensures state == Call(old(state), t) && state.worker == Idle(RunAgain)
    {
      Others(t.others);
      var copy := state.worker.copy;
      if copy.phase != Terminating && t.ok && Current(state, copy) {
        state := Store(state, state.env.value.(phase := Terminating));
      }
      state := Rest(state, RunAgain);
    }

    method RemoveFinalizer(t: Turn) returns (o: Outcome)
      requires state.worker.Releasing? && t.Fair()
      modifies this
      ensures state == Call(old(state), t) && state.worker == Idle(o)
      ensures o == Finished ==> state.env.None?
      ensures o != Finished ==> o == Failed
    {
      Others(t.others);
      if !t.ok || !Current(state, state.worker.copy) {
        o := Failed;
      } else {
        state := Remove(state);
        o := Finished;
      }
      state := Rest(state, o);
    }

    /** Nothing to do without the finalizer; otherwise the namespace decides. */
    method LookAtNamespace(t: Turn)
      requires state.worker.Leaving? && t.Fair()
      modifies this
      ensures state == Call(old(state), t)
      ensures var copy := old(state).worker.copy;
              || state.worker == Idle(if copy.finalizer then Failed else Finished)
              || (copy.finalizer && state.worker in {Releasing(copy), Emptying(copy), Marking(copy)})
    {
      Others(t.others);
      var copy := state.worker.copy;
      if !copy.finalizer {
        state := Rest(state, Finished);
      } else if !t.ok {
        state := Rest(state, Failed);
      } else if state.ns == Absent {
        state := state.(worker := Releasing(copy));
      } else if state.ns == Active {
        state := state.(worker := Emptying(copy));
      } else {
        state := state.(worker := Marking(copy));
      }
    }

    /** Deletion, with others stepping before each of its calls, is these turns and no other step of
        the operator. It ends for good only with the object gone or without the finalizer. */
    method ReconcileDelete(look: Turn, act: Turn, mark: Turn) returns (o: Outcome, ghost turns: seq<Turn>)
      requires state.worker.Leaving? && look.Fair() && act.Fair() && mark.Fair()
      modifies this
      ensures state == After(old(state), turns) && state.worker == Idle(o)
      ensures DeletionTurns(turns, look, act, mark, o)
      ensures o == Finished && old(state).worker.copy.finalizer ==> state.env.None? && turns == [look, act]
    {
      turns := [look];
      AfterSnoc(state, [], look);
      LookAtNamespace(look);
      if state.worker.Idle? {
        return state.worker.last, turns;
      }
      if state.worker.Releasing? {
        AfterSnoc(old(state), turns, act);
        turns := turns + [act];
        o := RemoveFinalizer(act);
        return;
      }
      if state.worker.Emptying? {
        AfterSnoc(old(state), turns, act);
        turns := turns + [act];
        var ok := RequestNamespaceDeletion(act);
        if !ok {
          return Failed, turns;
        }
      }
      AfterSnoc(old(state), turns, mark);
      turns := turns + [mark];
      MarkTerminating(mark);
      o := RunAgain;
    }

    method EnsureFinalizer(t: Turn) returns (ok: bool)
      requires state.worker.Ensuring? && t.Fair()
      modifies this
      ensures state == Call(old(state), t)
      ensures if ok then state.worker.Placing? && state.worker.copy.finalizer else state.worker == Idle(Failed)
      ensures var s, copy := Exec(old(state), t.others), old(state).worker.copy;
              && ok == (copy.finalizer || (t.ok && Current(s, copy)))
              && if ok && !copy.finalizer
                 then Updated(s, state, s.env.value.(finalizer := true)) && state.worker.copy == state.env.value
                 else state.env == s.env && state.log == s.log && (ok ==> state.worker.copy == copy)
    {
      Others(t.others);
      var copy := state.worker.copy;
      if copy.finalizer {
        state := state.(worker := Placing(copy));
        return true;
      }
      ok := t.ok && Current(state, copy);
      if ok {
        state := Store(state, state.env.value.(finalizer := true));
        state := state.(worker := Placing(state.env.value));
      } else {
        state := Rest(state, Failed);
      }
    }

    method EnsureNamespace(t: Turn) returns (ok: bool)
      requires state.worker.Placing? && t.Fair()
      modifies this
      ensures state == Call(old(state), t)
      ensures state.worker == if ok then Dating(old(state).worker.copy) else Idle(Failed)
      ensures var s := Exec(old(state), t.others);
              && ok == t.ok && state.env == s.env && state.log == s.log
              && state.ns == if ok && s.ns == Absent then Active else s.ns
    {
      Others(t.others);
      var copy := state.worker.copy;
      ok := t.ok;
      if !ok {
        state := Rest(state, Failed);
        return;
      }
      if state.ns == Absent {
        state := state.(ns := Active);
      }
      state := state.(worker := Dating(copy));
    }

    /** The expiry is set once, from the creation time; past it the object is deleted. */
    method CheckExpiry(t: Turn) returns (goOn: bool)
      requires state.worker.Dating? && t.Fair()
      modifies this
      ensures state == Call(old(state), t)
      ensures if goOn then state.worker.Reporting? && state.worker.copy.expiresAt.Some?
              else state.worker.Idle? && state.worker.last != RunAgain
      ensures var s, copy := Exec(old(state), t.others), old(state).worker.copy;
              && goOn == (t.ok && t.now <= DueAt(copy))
              && (goOn ==> state.worker.copy == copy.(expiresAt := Some(DueAt(copy))))
              && (!t.ok ==> state.worker == Idle(Failed))
              && if t.ok && t.now > DueAt(copy)
                 then state.worker == Idle(Finished) && (state.env.None? || state.env.value.deleting)
                 else state.env == s.env && state.ns == s.ns && state.log == s.log
    {
      Others(t.others);
      var copy := state.worker.copy;
      if copy.expiresAt.None? {
        copy := copy.(expiresAt := Some(copy.created + copy.ttl));
      }
      if !t.ok {
        state := Rest(state, Failed);
        return false;
      }
      if t.now > copy.expiresAt.value {
        state := Rest(ApiDelete(state), Finished);
        return false;
      }
      state := state.(worker := Reporting(copy));
      goOn := true;
    }

    /** The status update; a conflict asks to run again, and so does the time left. */
    method WriteStatus(t: Turn) returns (o: Outcome)
      requires state.worker.Reporting? && t.Fair()
      modifies this
      ensures state == Call(old(state), t) && state.worker == Idle(o) && o == if t.ok then RunAgain else Failed
      ensures var s, copy := Exec(old(state), t.others), old(state).worker.copy;
              if t.ok && Current(s, copy)
              then exists phase :: Told(phase, t.reports) &&
                     Written(s, state, s.env.value.(phase := phase, expiresAt := copy.expiresAt, assets := t.reports))
              else state.env == s.env && state.log == s.log
    {
      Others(t.others);
      var copy := state.worker.copy;
      if !t.ok {
        o := Failed;
      } else {
        o := RunAgain;
        if Current(state, copy) {
          PhaseTold(t.reports);
          var e := state.env.value;
          var e' := e.(phase := PhaseFor(t.reports), expiresAt := copy.expiresAt, assets := t.reports);
          if e' != e {
            state := Store(state, e');
          }
        }
      }
      state := Rest(state, o);
    }

    /** Creation, with others stepping before each of its calls: its turns in order, as far as it
        gets. */
    method ReconcileCreate(finalize: Turn, place: Turn, date: Turn, report: Turn)
      returns (o: Outcome, ghost turns: seq<Turn>)
      requires state.worker.Ensuring? && finalize.Fair() && place.Fair() && date.Fair() && report.Fair()
      modifies this
      ensures state == After(old(state), turns) && state.worker == Idle(o)
      ensures CreationTurns(turns, finalize, place, date, report, o)
    {
      turns := [finalize];
      AfterSnoc(state, [], finalize);
      var ok := EnsureFinalizer(finalize);
      if !ok {
        return Failed, turns;
      }
      AfterSnoc(old(state), turns, place);
      turns := turns + [place];
      ok := EnsureNamespace(place);
      if !ok {
        return Failed, turns;
      }
      AfterSnoc(old(state), turns, date);
      turns := turns + [date];
      ok := CheckExpiry(date);
      if !ok {
        return state.worker.last, turns;
      }
      AfterSnoc(old(state), turns, report);
      turns := turns + [report];
      o := WriteStatus(report);
    }

    /** Fetching the object decides between nothing, deletion and creation. */
    method Fetch(get: Turn)
      requires state.worker.Idle? && state.due && get.Fair()
      modifies this
      ensures state == Call(old(state), get)
      ensures var s := Exec(old(state), get.others);
              state.worker == if !get.ok then Idle(Failed) else if s.env.None? then Idle(Finished)
                              else if s.env.value.deleting then Leaving(s.env.value) else Ensuring(s.env.value)
    {
      Others(get.others);
      state := PickUp(state.(due := false), get.ok);
    }

    /** One request from the work queue is a run of the machine: the object is fetched, then it is
        created or deleted as what was fetched says, and the outcome is theirs. */
    method Reconcile(get: Turn, first: Turn, second: Turn, third: Turn, fourth: Turn)
      returns (o: Outcome, ghost turns: seq<Turn>)
      requires state.worker.Idle? && state.due
      requires get.Fair() && first.Fair() && second.Fair() && third.Fair() && fourth.Fair()
      modifies this
      ensures state == Exec(old(state), Labels(turns)) && state.worker == Idle(o)
      ensures turns != [] && turns[0] == get
      ensures var s := Exec(old(state), get.others);
              if !get.ok then turns == [get] && o == Failed
              else if s.env.None? then turns == [get] && o == Finished
              else if s.env.value.deleting then DeletionTurns(turns[1..], first, second, third, o)
              else CreationTurns(turns[1..], first, second, third, fourth, o)
    {
      Fetch(get);
      ghost var more: seq<Turn> := [];
      if state.worker.Idle? {
        o := state.worker.last;
      } else if state.worker.Leaving? {
        o, more := ReconcileDelete(first, second, third);
      } else {
        o, more := ReconcileCreate(first, second, third, fourth);
      }
      turns := [get] + more;
      AfterCons(old(state), get, more);
      AfterIsRun(old(state), turns);
      assert turns[1..] == more;
    }
  }
}
