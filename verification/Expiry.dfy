/** Expiry: where it comes from, and that the operator enforces it. */
module Expiry {
  import opened Options
  import opened Lifecycle

  // ---- TTLs an object has had ----

  function Stamp(env: Option<Env>): set<(nat, int)> {
    match env case None => {} case Some(e) => {(e.uid, e.ttl)}
  }

  /** The TTLs of objects over a run, by uid. */
  function Ttls(ls: seq<Label>): set<(nat, int)> {
    Stamp(Exec(START, ls).env) + if ls == [] then {} else Ttls(ls[..|ls| - 1])
  }

  ghost predicate HadTtl(ls: seq<Label>, uid: nat, ttl: int) {
    exists n :: 0 <= n <= |ls| && HasTtl(Exec(START, ls[..n]), uid, ttl)
  }

  predicate HasTtl(s: State, uid: nat, ttl: int) {
    s.env.Some? && s.env.value.uid == uid && s.env.value.ttl == ttl
  }

  lemma {:induction false} TtlsMean(ls: seq<Label>, uid: nat, ttl: int)
    requires (uid, ttl) in Ttls(ls)
    ensures HadTtl(ls, uid, ttl)
  {
    if (uid, ttl) in Stamp(Exec(START, ls).env) {
      assert ls[..|ls|] == ls;
      assert HasTtl(Exec(START, ls[..|ls|]), uid, ttl);
    } else {
      var init := ls[..|ls| - 1];
      TtlsMean(init, uid, ttl);
      var n :| 0 <= n <= |init| && HasTtl(Exec(START, init[..n]), uid, ttl);
      assert init[..n] == ls[..n];
    }
  }

  // ---- The invariant ----

  /** An expiry is the creation time plus a TTL from the history `had`. */
  ghost predicate FromTtl(had: set<(nat, int)>, uid: nat, created: int, expiresAt: Option<int>) {
    expiresAt.Some? ==> exists ttl :: (uid, ttl) in had && expiresAt.value == created + ttl
  }

  ghost predicate EnvDated(had: set<(nat, int)>, e: Env) {
    (e.uid, e.ttl) in had && FromTtl(had, e.uid, e.created, e.expiresAt)
  }

  predicate Creating(w: Worker) {
    w.Ensuring? || w.Placing? || w.Dating? || w.Reporting?
  }

  /** The operator's copy agrees with the object it was fetched from, if that still exists. */
  ghost predicate CopyDated(s: State, had: set<(nat, int)>) {
    Creating(s.worker) ==>
      var c := s.worker.copy;
      && EnvDated(had, c)
      && c.uid < s.nextUid
      && (s.env.Some? && s.env.value.uid == c.uid ==>
            && s.env.value.created == c.created
            && (if s.worker.Reporting? then s.env.value.expiresAt in {None, c.expiresAt}
                else s.env.value.expiresAt == c.expiresAt))
  }

  ghost predicate Dated(s: State, had: set<(nat, int)>) {
    (s.env.Some? ==> s.env.value.uid < s.nextUid && EnvDated(had, s.env.value)) && CopyDated(s, had)
  }

  lemma MoreTtls(had: set<(nat, int)>, more: set<(nat, int)>, e: Env)
    requires EnvDated(had, e) && had <= more
    ensures EnvDated(more, e)
  {
  }

  /** The object keeps its creation time and expiry, or is gone, or is a new one. */
  ghost predicate SameDates(s: State, s': State) {
    && s'.nextUid >= s.nextUid
    && (s'.env.Some? ==>
          var e' := s'.env.value;
          && e'.uid < s'.nextUid
          && if e'.uid >= s.nextUid then e'.expiresAt == None
             else s.env.Some? && s.env.value.uid == e'.uid && s.env.value.created == e'.created
                  && s.env.value.expiresAt == e'.expiresAt)
  }

  lemma SameDatesKeep(s: State, s': State, had: set<(nat, int)>, had': set<(nat, int)>)
    requires Dated(s, had) && SameDates(s, s') && s'.worker == s.worker
    requires had' == had + Stamp(s'.env)
    ensures Dated(s', had')
  {
    if s'.env.Some? && s'.env.value.uid < s.nextUid {
      MoreTtls(had, had', s.env.value);
    }
    if Creating(s.worker) {
      MoreTtls(had, had', s.worker.copy);
    }
  }

  lemma ApiSameDates(s: State, now: int, ttl: int)
    requires ObjectsOk(s)
    ensures SameDates(s, ApiDelete(s)) && ApiDelete(s).worker == s.worker
    ensures SameDates(s, ApiApply(s, now, ttl)) && ApiApply(s, now, ttl).worker == s.worker
  {
  }

  lemma ReconcileSameDates(s: State, desired: AttemptState, ok: bool, now: int, ttl: int)
    requires ObjectsOk(s)
    ensures var s' := ReconcileAttempt(s, desired, ok, now, ttl);
            SameDates(s, s') && s'.worker == s.worker
  {
    ApiSameDates(s, now, ttl);
  }

  lemma OthersSameDates(s: State, l: Label)
    requires ObjectsOk(s) && !l.Operate?
    ensures SameDates(s, Next(s, l)) && Next(s, l).worker == s.worker
  {
    match l
    case AdminDelete => ApiSameDates(s, 0, 0);
    case AdminApply(now, ttl) => ApiSameDates(s, now, ttl);
    case Resync(ok, now, ttl) => ReconcileSameDates(s, s.rec.desired, ok, now, ttl);
    case Realtime(_, _, ok, now, ttl) =>
      ReconcileSameDates(s, s.rec.desired, ok, now, ttl);
      ReconcileSameDates(s, Decommissioned, ok, now, ttl);
    case Upstream(ok) =>
      if s.seen < |s.log| {
        HandleEventFrame(s, ok);
      }
    case _ =>
  }

  lemma RestKeepsDates(s: State, s': State, had: set<(nat, int)>, had': set<(nat, int)>)
    requires Dated(s, had) && SameDates(s, s') && !Creating(s'.worker)
    requires had' == had + Stamp(s'.env)
    ensures Dated(s', had')
  {
    if s'.env.Some? && s'.env.value.uid < s.nextUid {
      MoreTtls(had, had', s.env.value);
    }
  }

  lemma LeavingSameDates(s: State, l: Label)
    requires Inv(s) && l.Operate? && (s.worker.Leaving? || s.worker.Emptying?)
    requires s.env.Some? ==> s.env.value.uid < s.nextUid
    ensures SameDates(s, Next(s, l)) && !Creating(Next(s, l).worker)
  {
    assert Next(s, l).env == s.env && Next(s, l).nextUid == s.nextUid;
  }

  lemma ReleasingSameDates(s: State, l: Label)
    requires Inv(s) && l.Operate? && s.worker.Releasing?
    requires s.env.Some? ==> s.env.value.uid < s.nextUid
    ensures SameDates(s, Next(s, l)) && !Creating(Next(s, l).worker)
  {
  }

  lemma MarkingSameDates(s: State, l: Label)
    requires Inv(s) && l.Operate? && s.worker.Marking?
    requires s.env.Some? ==> s.env.value.uid < s.nextUid
    ensures SameDates(s, Next(s, l)) && !Creating(Next(s, l).worker)
  {
  }

  lemma DeletingKeepsDates(s: State, l: Label, had: set<(nat, int)>, had': set<(nat, int)>)
    requires Inv(s) && Dated(s, had) && l.Operate? && !Creating(s.worker) && !s.worker.Idle?
    requires had' == had + Stamp(Next(s, l).env)
    ensures Dated(Next(s, l), had')
  {
    if s.worker.Releasing? {
      ReleasingSameDates(s, l);
    } else if s.worker.Marking? {
      MarkingSameDates(s, l);
    } else {
      LeavingSameDates(s, l);
    }
    RestKeepsDates(s, Next(s, l), had, had');
  }

  lemma IdleKeepsDates(s: State, l: Label, had: set<(nat, int)>, had': set<(nat, int)>)
    requires Inv(s) && Dated(s, had) && l.Operate? && s.worker.Idle?
    requires had' == had + Stamp(Next(s, l).env)
    ensures Dated(Next(s, l), had')
  {
    assert Next(s, l).env == s.env;
    if s.env.Some? {
      MoreTtls(had, had', s.env.value);
    }
  }

  lemma EnsuringKeepsDates(s: State, l: Label, had: set<(nat, int)>, had': set<(nat, int)>)
    requires Inv(s) && Dated(s, had) && l.Operate? && s.worker.Ensuring?
    requires had' == had + Stamp(Next(s, l).env)
    ensures Dated(Next(s, l), had')
  {
    MoreTtls(had, had', s.worker.copy);
    if s.env.Some? {
      MoreTtls(had, had', s.env.value);
    }
  }

  lemma PlacingKeepsDates(s: State, l: Label, had: set<(nat, int)>, had': set<(nat, int)>)
    requires Inv(s) && Dated(s, had) && l.Operate? && s.worker.Placing?
    requires had' == had + Stamp(Next(s, l).env)
    ensures Dated(Next(s, l), had')
  {
    MoreTtls(had, had', s.worker.copy);
    MoreTtls(had, had', s.env.value);
  }

  /** When an environment expires: the stored expiry, or creation time plus TTL if none is stored. */
  function DueAt(e: Env): int {
    if e.expiresAt.Some? then e.expiresAt.value else e.created + e.ttl
  }

  lemma DueIsFromTtl(had: set<(nat, int)>, c: Env)
    requires EnvDated(had, c)
    ensures FromTtl(had, c.uid, c.created, Some(DueAt(c)))
  {
  }

  lemma DatingKeepsDates(s: State, l: Label, had: set<(nat, int)>, had': set<(nat, int)>)
    requires Inv(s) && Dated(s, had) && l.Operate? && s.worker.Dating?
    requires had' == had + Stamp(Next(s, l).env)
    ensures Dated(Next(s, l), had')
  {
    var c := s.worker.copy;
    if l.ok && l.now > DueAt(c) {
      RestKeepsDates(s, Next(s, l), had, had');
    } else {
      MoreTtls(had, had', s.env.value);
      MoreTtls(had, had', c);
      DueIsFromTtl(had', c);
    }
  }

  lemma ReportingKeepsDates(s: State, l: Label, had: set<(nat, int)>, had': set<(nat, int)>)
    requires Inv(s) && Dated(s, had) && l.Operate? && s.worker.Reporting?
    requires had' == had + Stamp(Next(s, l).env)
    ensures Dated(Next(s, l), had')
  {
    MoreTtls(had, had', s.env.value);
    MoreTtls(had, had', s.worker.copy);
  }

  lemma NextKeepsDates(s: State, l: Label, had: set<(nat, int)>)
    requires Inv(s) && Dated(s, had)
    ensures Dated(Next(s, l), had + Stamp(Next(s, l).env))
  {
    var had' := had + Stamp(Next(s, l).env);
    if !l.Operate? {
      OthersSameDates(s, l);
      SameDatesKeep(s, Next(s, l), had, had');
    } else {
      match s.worker
      case Idle(_) => IdleKeepsDates(s, l, had, had');
      case Ensuring(_) => EnsuringKeepsDates(s, l, had, had');
      case Placing(_) => PlacingKeepsDates(s, l, had, had');
      case Dating(_) => DatingKeepsDates(s, l, had, had');
      case Reporting(_) => ReportingKeepsDates(s, l, had, had');
      case _ => DeletingKeepsDates(s, l, had, had');
    }
  }

  lemma {:induction false} RunIsDated(ls: seq<Label>)
    ensures Inv(Exec(START, ls)) && Dated(Exec(START, ls), Ttls(ls))
  {
    StartIsOk();
    if ls != [] {
      var init, l := ls[..|ls| - 1], ls[|ls| - 1];
      RunIsDated(init);
      ExecSnoc(START, init, l);
      assert init + [l] == ls;
      NextKeepsInv(Exec(START, init), l);
      NextKeepsDates(Exec(START, init), l, Ttls(init));
    }
  }

  // ---- What follows for every run ----

  /** Every stored expiry is its object's creation time plus a TTL that object has had. */
  lemma StoredExpiry(ls: seq<Label>) returns (ttl: int)
    requires var s := Exec(START, ls); s.env.Some? && s.env.value.expiresAt.Some?
    ensures var e := Exec(START, ls).env.value;
            HadTtl(ls, e.uid, ttl) && e.expiresAt == Some(e.created + ttl)
  {
    RunIsDated(ls);
    var e := Exec(START, ls).env.value;
    ttl :| (e.uid, ttl) in Ttls(ls) && e.expiresAt.value == e.created + ttl;
    TtlsMean(ls, e.uid, ttl);
  }

  /** The expiry check of a creation: with `due` the stored expiry of the object or, if it has none, its
      creation time plus a TTL it has had, the reconcile goes on exactly if it is not past `due`, and
      then writes that expiry; otherwise it is finished, and the object is being deleted. */
  lemma ExpiryCheck(ls: seq<Label>, now: int, reports: seq<AssetStatus>) returns (ttl: int)
    requires Exec(START, ls).worker.Dating?
    ensures var s := Exec(START, ls);
            && s.env.Some?
            && HadTtl(ls, s.env.value.uid, ttl)
            && var e := s.env.value;
               var due := if e.expiresAt.Some? then e.expiresAt.value else e.created + ttl;
               var s' := Next(s, Operate(true, now, reports));
               && (s'.worker.Reporting? <==> now <= due)
               && (now <= due ==> s'.env == s.env && s'.worker.copy.expiresAt == Some(due))
               && (now > due ==>
                     && s'.worker == Idle(Finished)
                     && s'.env.Some? && s'.env.value.uid == e.uid && s'.env.value.deleting)
  {
    RunIsDated(ls);
    ttl := Exec(START, ls).worker.copy.ttl;
    TtlsMean(ls, Exec(START, ls).worker.copy.uid, ttl);
  }

  lemma ReconcileOf(s: State, now: int, reports: seq<AssetStatus>) returns (s3: State)
    requires Inv(s) && s.worker.Idle? && s.env.Some? && !s.env.value.deleting
    ensures var l := Operate(true, now, reports);
            s3 == Exec(s, [l, l, l])
            && s3.worker.Dating? && DueAt(s3.worker.copy) == DueAt(s.env.value)
            && s3.env.Some? && s3.env.value.uid == s.env.value.uid && s3.env.value.finalizer && Current(s3, s3.worker.copy)
  {
    var l := Operate(true, now, reports);
    var s1 := Next(s, l);
    assert s1.worker == Ensuring(s.env.value);
    var s2 := Next(s1, l);
    assert s2.worker.Placing?;
    s3 := Next(s2, l);
    assert Exec(s, [l, l, l]) == Exec(s1, [l, l]);
    assert Exec(s1, [l, l]) == Exec(s2, [l]);
    assert Exec(s2, [l]) == Exec(s3, []);
  }

  /** So one undisturbed reconcile of an expired environment ends with its deletion. */
  lemma ExpiredIsDeleted(ls: seq<Label>, now: int, reports: seq<AssetStatus>)
    requires var s := Exec(START, ls);
             s.worker.Idle? && s.env.Some? && !s.env.value.deleting && now > DueAt(s.env.value)
    ensures var s, l := Exec(START, ls), Operate(true, now, reports);
            var s' := Exec(s, [l, l, l, l]);
            s'.worker == Idle(Finished) && s'.env.Some? && s'.env.value.uid == s.env.value.uid && s'.env.value.deleting
  {
    RunIsDated(ls);
    var s, l := Exec(START, ls), Operate(true, now, reports);
    var s3 := ReconcileOf(s, now, reports);
    ExecAppend(s, [l, l, l], [l]);
    assert [l, l, l] + [l] == [l, l, l, l];
    assert Exec(s3, [l]) == Exec(Next(s3, l), []);
  }
}
