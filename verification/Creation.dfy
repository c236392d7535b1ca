/** How an attempt comes to be provisioned, and exactly when it still can. */
module Creation {
  import opened Options
  import opened Lifecycle
  import opened Expiry
  import UpstreamRuns

  // ---- One application ----

  /** The object after an application of `ttl` at time `now`: a new one if there was none, otherwise the
      same one, stored anew only if its TTL was another. */
  ghost predicate Applied(s: State, s': State, now: int, ttl: int) {
    && s'.env.Some?
    && var e' := s'.env.value;
       && e'.ttl == ttl
       && match s.env
          case None =>
            && e'.uid >= s.nextUid && e'.created == now
            && !e'.deleting && !e'.finalizer && e'.phase == Unset && e'.expiresAt == None && e'.assets == []
            && s'.log == s.log + [Upsert(e')] && s'.due
          case Some(e) =>
            && e'.(rv := e.rv, ttl := e.ttl) == e
            && if e.ttl == ttl then s' == s else e'.rv >= s.nextRv && s'.log == s.log + [Upsert(e')] && s'.due
  }

  /** The object is going or gone; without one the record is marked. */
  ghost predicate Removed(s: State, s': State) {
    match s.env
    case None => s'.env.None? && s'.rec == Record(Decommissioned, s.rec.desired) && s'.log == s.log
    case Some(e) =>
      && s'.rec == s.rec
      && if e.finalizer
         then && s'.env.Some? && s'.env.value.deleting
              && s'.env.value.(rv := e.rv, deleting := e.deleting) == e
              && if e.deleting then s'.log == s.log && s'.env == s.env else s'.log == s.log + [Upsert(s'.env.value)]
         else s'.env.None? && s'.log == s.log + [Deleted]
  }

  /** A resync applies the object of every attempt that is to exist and does not yet stand as asked for. */
  lemma ResyncApplies(s: State, now: int, ttl: int)
    requires s.rec.current != s.rec.desired && s.rec.desired != Decommissioned
    ensures Applied(s, Next(s, Resync(true, now, ttl)), now, ttl)
  {
  }

  /** So does an event about such an attempt, whatever its state, once the attempt is fetched. */
  lemma EventApplies(s: State, snapshot: Record, now: int, ttl: int)
    requires snapshot in s.past && snapshot.desired != Decommissioned && s.rec.desired != Decommissioned
    ensures Applied(s, Next(s, Realtime(snapshot, Found, true, now, ttl)), now, ttl)
  {
  }

  /** Nothing happens if the attempt cannot be fetched, or if the call fails. */
  lemma NothingApplied(s: State, l: Label)
    requires match l
             case Resync(ok, _, _) => !ok
             case Realtime(r, fetched, ok, _, _) => !ok || (fetched == Unreachable && r.desired != Decommissioned)
             case _ => false
    ensures Next(s, l) == s
  {
  }

  /** An attempt to be gone, or not found, has its object deleted, or is marked if there is none. */
  lemma EventRemoves(s: State, snapshot: Record, fetched: Fetched, now: int, ttl: int)
    requires snapshot in s.past && snapshot != Record(Decommissioned, Decommissioned)
    requires snapshot.desired == Decommissioned || fetched == Missing
    ensures Removed(s, Next(s, Realtime(snapshot, fetched, true, now, ttl)))
  {
  }

  /** And a resync of an attempt that is to be gone. */
  lemma ResyncRemoves(s: State, now: int, ttl: int)
    requires s.rec.current != Decommissioned && s.rec.desired == Decommissioned
    ensures Removed(s, Next(s, Resync(true, now, ttl)))
  {
  }

  /** A resync leaves an attempt alone that stands as asked for. */
  lemma ResyncLeaves(s: State, ok: bool, now: int, ttl: int)
    requires s.rec.current == s.rec.desired
    ensures Next(s, Resync(ok, now, ttl)) == s
  {
  }

  // ---- What else every run keeps ----

  /** A namespace is closing only under a deletion, and a status is written only beside a namespace. */
  ghost predicate Grounded(s: State) {
    && (s.ns == Closing ==> s.env.Some? && s.env.value.deleting && !Creating(s.worker))
    && (s.worker.Dating? || s.worker.Reporting? ==> s.ns == Active)
    && (s.env.Some? && !s.env.value.deleting && s.env.value.phase != Unset ==> s.ns == Active)
  }

  lemma CreateKeepsGrounded(s: State, l: Label)
    requires Inv(s) && Grounded(s) && l.Operate? && Creating(s.worker)
    ensures Grounded(CreateStep(s, l))
  {
  }

  lemma DeleteKeepsGrounded(s: State, l: Label)
    requires Inv(s) && Grounded(s) && l.Operate? && !Creating(s.worker) && !s.worker.Idle?
    ensures Grounded(DeleteStep(s, l))
  {
  }

  lemma OperatorKeepsGrounded(s: State, l: Label)
    requires Inv(s) && Grounded(s) && l.Operate?
    ensures Grounded(Next(s, l))
  {
    if Creating(s.worker) {
      CreateKeepsGrounded(s, l);
    } else if !s.worker.Idle? {
      DeleteKeepsGrounded(s, l);
    }
  }

  lemma ApiKeepsGrounded(s: State, now: int, ttl: int)
    requires Inv(s) && Grounded(s)
    ensures Grounded(ApiDelete(s)) && Grounded(ApiApply(s, now, ttl))
  {
  }

  lemma ReconcileKeepsGrounded(s: State, desired: AttemptState, ok: bool, now: int, ttl: int)
    requires Inv(s) && Grounded(s)
    ensures Grounded(ReconcileAttempt(s, desired, ok, now, ttl))
  {
    ApiKeepsGrounded(s, now, ttl);
  }

  lemma OthersKeepGrounded(s: State, l: Label)
    requires Inv(s) && Grounded(s) && !l.Operate?
    ensures Grounded(Next(s, l))
  {
    match l
    case AdminDelete => ApiKeepsGrounded(s, 0, 0);
    case AdminApply(now, ttl) => ApiKeepsGrounded(s, now, ttl);
    case Resync(ok, now, ttl) => ReconcileKeepsGrounded(s, s.rec.desired, ok, now, ttl);
    case Realtime(_, _, ok, now, ttl) =>
      ReconcileKeepsGrounded(s, s.rec.desired, ok, now, ttl);
      ReconcileKeepsGrounded(s, Decommissioned, ok, now, ttl);
    case Upstream(ok) =>
      if s.seen < |s.log| {
        HandleEventFrame(s, ok);
      }
    case _ =>
  }

  lemma {:induction false} RunIsGrounded(s: State, ls: seq<Label>)
    requires Inv(s) && Grounded(s)
    ensures Inv(Exec(s, ls)) && Grounded(Exec(s, ls))
    decreases |ls|
  {
    if ls != [] {
      NextKeepsInv(s, ls[0]);
      if ls[0].Operate? {
        OperatorKeepsGrounded(s, ls[0]);
      } else {
        OthersKeepGrounded(s, ls[0]);
      }
      RunIsGrounded(Next(s, ls[0]), ls[1..]);
    }
  }

  // ---- Towards a provisioned attempt ----

  ghost predicate DeletionQueued(s: State) {
    exists i :: s.seen <= i < |s.log| && s.log[i].Deleted?
  }

  /** The attempt is wanted, nothing of it is being deleted, and a missing object will be noticed. */
  ghost predicate Hopeful(s: State) {
    && s.rec.desired == Provisioned
    && !DeletionQueued(s)
    && match s.env
       case None => s.rec.current != Provisioned
       case Some(e) => !e.deleting
  }

  ghost predicate Reached(s: State) {
    && s.rec == Record(Provisioned, Provisioned)
    && s.env.Some? && !s.env.value.deleting && s.env.value.phase == Ready
    && s.ns == Active
    && s.seen == |s.log|
  }

  /** Neither the object nor the operator's copy of it expires before `end`. */
  ghost predicate InTime(s: State, end: int) {
    && (s.env.Some? ==> end <= DueAt(s.env.value))
    && (Creating(s.worker) ==> end <= DueAt(s.worker.copy))
  }

  /** The time is not past `end`, a lab created now lasts until then, and all assets are ready. */
  ghost predicate Calm(g: Given, end: int) {
    g.now <= end <= g.now + g.ttl && Provisioning.AllReady(g.reports)
  }

  function ProvisionStep(s: State, g: Given): Label {
    if s.env.None? then Resync(true, g.now, g.ttl)
    else if s.env.value.phase != Ready then Operate(true, g.now, g.reports)
    else if s.seen < |s.log| then Upstream(true)
    else InformerResync
  }

  ghost function RankP(s: State): Rank {
    if Reached(s) then Rank(0, 0, 0)
    else match s.env
      case None => Rank(2, 0, 0)
      case Some(e) =>
        if e.phase != Ready then Rank(1, 0, StatusRank(s))
        else Rank(0, 1, if Queued(s) == 0 then 2 else Queued(s))
  }

  /** The step is enabled, lowers the rank and keeps the attempt on its way. */
  ghost predicate Advances(s: State, l: Label, end: int) {
    && Enabled(s, l)
    && Lower(RankP(Next(s, l)), RankP(s))
    && Hopeful(Next(s, l)) && InTime(Next(s, l), end)
  }

  lemma CreatingAdvances(s: State, g: Given, end: int)
    requires Inv(s) && Hopeful(s) && InTime(s, end) && Calm(g, end) && s.env.None?
    ensures Advances(s, Resync(true, g.now, g.ttl), end)
  {
    ResyncApplies(s, g.now, g.ttl);
  }

  lemma IdleAdvances(s: State, g: Given, end: int)
    requires Inv(s) && Hopeful(s) && InTime(s, end) && s.worker.Idle?
    requires s.env.Some? && s.env.value.phase != Ready
    ensures Advances(s, Operate(true, g.now, g.reports), end)
  {
    var s' := Next(s, Operate(true, g.now, g.reports));
    assert s'.worker == Ensuring(s.env.value) && s'.env == s.env && s'.log == s.log && s'.rec == s.rec;
  }

  lemma EnsuringAdvances(s: State, g: Given, end: int)
    requires Inv(s) && Hopeful(s) && InTime(s, end) && s.worker.Ensuring?
    requires s.env.Some? && s.env.value.phase != Ready
    ensures Advances(s, Operate(true, g.now, g.reports), end)
  {
  }

  lemma PlacingAdvances(s: State, g: Given, end: int)
    requires Inv(s) && Hopeful(s) && InTime(s, end) && s.worker.Placing?
    requires s.env.Some? && s.env.value.phase != Ready
    ensures Advances(s, Operate(true, g.now, g.reports), end)
  {
  }

  lemma DatingAdvances(s: State, g: Given, end: int)
    requires Inv(s) && Hopeful(s) && InTime(s, end) && Calm(g, end) && s.worker.Dating?
    requires s.env.Some? && s.env.value.phase != Ready
    ensures Advances(s, Operate(true, g.now, g.reports), end)
  {
  }

  lemma ReportingAdvances(s: State, g: Given, end: int)
    requires Inv(s) && Grounded(s) && Hopeful(s) && InTime(s, end) && Calm(g, end) && s.worker.Reporting?
    requires s.env.Some? && s.env.value.phase != Ready
    ensures Advances(s, Operate(true, g.now, g.reports), end)
  {
    Provisioning.CountMeans(g.reports);
  }

  lemma DrainingAdvances(s: State, end: int)
    requires Inv(s) && Grounded(s) && Hopeful(s) && InTime(s, end)
    requires s.env.Some? && s.env.value.phase == Ready && s.seen < |s.log|
    ensures Advances(s, Upstream(true), end)
  {
    HandleEventKeepsInv(s, true);
  }

  lemma RepeatingAdvances(s: State, end: int)
    requires Inv(s) && Grounded(s) && Hopeful(s) && InTime(s, end) && !Reached(s)
    requires s.env.Some? && s.env.value.phase == Ready && s.seen == |s.log|
    ensures Advances(s, InformerResync, end)
  {
  }

  /** While the attempt can be provisioned and is not yet, an enabled step of the system lowers the rank. */
  lemma ProvisionLowersRank(s: State, g: Given, end: int)
    requires Inv(s) && Grounded(s) && Hopeful(s) && InTime(s, end) && Calm(g, end) && !Reached(s)
    ensures IsSystem(ProvisionStep(s, g)) && Advances(s, ProvisionStep(s, g), end)
  {
    if s.env.None? {
      CreatingAdvances(s, g, end);
    } else if s.env.value.phase == Ready {
      if s.seen < |s.log| {
        DrainingAdvances(s, end);
      } else {
        RepeatingAdvances(s, end);
      }
    } else {
      match s.worker
      case Idle(_) => IdleAdvances(s, g, end);
      case Ensuring(_) => EnsuringAdvances(s, g, end);
      case Placing(_) => PlacingAdvances(s, g, end);
      case Dating(_) => DatingAdvances(s, g, end);
      case Reporting(_) => ReportingAdvances(s, g, end);
    }
  }

  /** Every step of `ls` is an enabled step of the system, the i-th in the circumstances `given(n + i)`. */
  ghost predicate Provisions(s: State, ls: seq<Label>, given: nat -> Given, n: nat)
    decreases |ls|
  {
    ls != [] ==>
      && ls[0] == ProvisionStep(s, given(n))
      && IsSystem(ls[0])
      && Enabled(s, ls[0])
      && Provisions(Next(s, ls[0]), ls[1..], given, n + 1)
  }

  /** So steps of the system alone provision it. */
  lemma {:induction false} ProvisioningCompletes(s: State, given: nat -> Given, n: nat, end: int) returns (ls: seq<Label>)
    requires Inv(s) && Grounded(s) && Hopeful(s) && InTime(s, end) && forall i :: Calm(given(i), end)
    ensures Reached(Exec(s, ls)) && Provisions(s, ls, given, n) && Quiet(ls)
    decreases RankP(s).stage, RankP(s).major, RankP(s).minor
  {
    if Reached(s) {
      ls := [];
    } else {
      var l := ProvisionStep(s, given(n));
      ProvisionLowersRank(s, given(n), end);
      RunIsGrounded(s, [l]);
      assert Exec(s, [l]) == Exec(Next(s, l), []);
      var rest := ProvisioningCompletes(Next(s, l), given, n + 1, end);
      ls := [l] + rest;
      assert ls[1..] == rest;
    }
  }

  // ---- Exactly when ----

  /** Steps of the system other than events about the record, with every patch of the record going through. */
  ghost predicate Quiet(ls: seq<Label>) {
    forall l :: l in ls ==> IsSystem(l) && !l.Realtime? && (l.Upstream? ==> l.ok)
  }

  lemma DesiredStays(s: State, l: Label)
    requires s.rec.desired != Provisioned
    ensures Next(s, l).rec.desired != Provisioned
  {
  }

  lemma QueuedIn(s: State, i: nat)
    requires s.seen <= i < |s.log| && s.log[i].Deleted?
    ensures DeletionQueued(s)
  {
  }

  lemma CreateKeepsSeen(s: State, l: Label)
    requires l.Operate? && Creating(s.worker)
    ensures CreateStep(s, l).seen == s.seen
  {
  }

  lemma DeleteKeepsSeen(s: State, l: Label)
    requires l.Operate? && !Creating(s.worker) && !s.worker.Idle?
    ensures DeleteStep(s, l).seen == s.seen
  {
  }

  lemma OthersKeepSeen(s: State, l: Label)
    requires !l.Operate?
    ensures Next(s, l).seen == if l.Upstream? && s.seen < |s.log| then s.seen + 1 else s.seen
  {
  }

  lemma LogGrows(s: State, l: Label)
    ensures s.log <= Next(s, l).log
    ensures Next(s, l).seen == if l.Upstream? && s.seen < |s.log| then s.seen + 1 else s.seen
  {
    UpstreamRuns.LogGrowth(s, l);
    if !l.Operate? {
      OthersKeepSeen(s, l);
    } else if Creating(s.worker) {
      CreateKeepsSeen(s, l);
    } else if !s.worker.Idle? {
      DeleteKeepsSeen(s, l);
    }
  }

  /** A queued deletion stays queued until its patch goes through. */
  lemma DeletionStays(s: State, l: Label)
    requires DeletionQueued(s) && Quiet([l])
    ensures DeletionQueued(Next(s, l)) || Next(s, l).rec.desired != Provisioned
  {
    assert l in [l];
    LogGrows(s, l);
    var i :| s.seen <= i < |s.log| && s.log[i].Deleted?;
    if l.Upstream? && i == s.seen {
      assert Next(s, l) == HandleEvent(s, true);
    } else {
      QueuedIn(Next(s, l), i);
    }
  }

  /** A deletion ends with the object gone and an event about it. */
  lemma DeletingStays(s: State, l: Label)
    requires Inv(s) && s.env.Some? && s.env.value.deleting && Quiet([l])
    ensures var s' := Next(s, l);
            DeletionQueued(s') || (s'.env.Some? && s'.env.value.deleting)
  {
    assert l in [l];
    var s' := Next(s, l);
    if s'.env.None? {
      assert s'.log == s.log + [Deleted];
      QueuedIn(s', |s.log|);
    }
  }

  lemma LastIsDeletion(s: State)
    requires LogOk(s) && s.env.None?
    ensures s.seen == |s.log| || DeletionQueued(s)
  {
    if s.seen < |s.log| {
      QueuedIn(s, |s.log| - 1);
    }
  }

  /** Nobody notices that the object is gone. */
  lemma ForgottenStays(s: State, l: Label)
    requires Inv(s) && s.env.None? && s.rec == Record(Provisioned, Provisioned) && !DeletionQueued(s) && Quiet([l])
    ensures var s' := Next(s, l);
            s'.env.None? && s'.rec == s.rec && !DeletionQueued(s')
  {
    assert l in [l];
    LastIsDeletion(s);
  }

  lemma StaysLost(s: State, l: Label)
    requires Inv(s) && !Hopeful(s) && Quiet([l])
    ensures !Hopeful(Next(s, l))
  {
    if s.rec.desired != Provisioned {
      DesiredStays(s, l);
    } else if DeletionQueued(s) {
      DeletionStays(s, l);
    } else if s.env.Some? {
      DeletingStays(s, l);
    } else {
      ForgottenStays(s, l);
    }
  }

  lemma {:induction false} LostForever(s: State, ls: seq<Label>)
    requires Inv(s) && !Hopeful(s) && Quiet(ls)
    ensures !Reached(Exec(s, ls))
    decreases |ls|
  {
    if ls != [] {
      assert ls[0] in ls && forall l :: l in ls[1..] ==> l in ls;
      StaysLost(s, ls[0]);
      NextKeepsInv(s, ls[0]);
      LostForever(Next(s, ls[0]), ls[1..]);
    }
  }

  /** Exactly the hopeful states lead to a provisioned attempt by the system's own steps: not those where
      a deletion is under way or still queued, nor those where the object is gone while the record says
      it is there. */
  lemma ProvisioningIff(before: seq<Label>, given: nat -> Given, end: int)
    requires InTime(Exec(START, before), end) && forall i :: Calm(given(i), end)
    ensures var s := Exec(START, before);
            Hopeful(s) <==> exists ls :: Quiet(ls) && Reached(Exec(s, ls))
  {
    StartIsOk();
    RunIsGrounded(START, before);
    var s := Exec(START, before);
    if Hopeful(s) {
      var ls := ProvisioningCompletes(s, given, 0, end);
    } else {
      forall ls | Quiet(ls)
        ensures !Reached(Exec(s, ls))
      {
        LostForever(s, ls);
      }
    }
  }

  /** Every new attempt is provisioned, if nobody interferes. */
  lemma NewAttemptIsProvisioned(given: nat -> Given, end: int) returns (ls: seq<Label>)
    requires forall i :: Calm(given(i), end)
    ensures Reached(Exec(START, ls)) && Provisions(START, ls, given, 0)
  {
    StartIsOk();
    ls := ProvisioningCompletes(START, given, 0, end);
  }
}
