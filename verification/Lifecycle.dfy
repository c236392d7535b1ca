/** The life of one attempt: its PocketBase record, the attempt-controller that follows it, its
    LabEnvironment, the operator and the lab namespace, as one step machine. */
module Lifecycle {
  import opened Options
  import Provisioning

  type AssetStatus = Provisioning.AssetStatus

  // ---- Objects ----

  datatype AttemptState = New | Provisioning | Provisioned | Decommissioned

  datatype Record = Record(current: AttemptState, desired: AttemptState)

  datatype Phase = Unset | Pending | Ready | Degraded | Terminating

  /** A LabEnvironment: metadata, the one spec field that matters here, and its status. */
  datatype Env = Env(
    uid: nat, rv: nat, deleting: bool, finalizer: bool,
    created: int, ttl: int,
    phase: Phase, expiresAt: Option<int>, assets: seq<AssetStatus>)

  datatype Namespace = Absent | Active | Closing

  datatype Event = Upsert(env: Env) | Deleted

  /** What a reconcile call returned: nothing more to do, run again, or an error (also retried). */
  datatype Outcome = Finished | RunAgain | Failed

  /** The operator's single worker: where it is in a reconcile, with the object it fetched. */
  datatype Worker =
    | Idle(last: Outcome)
    | Ensuring(copy: Env)     // reconcileCreate: about to ensure the finalizer
    | Placing(copy: Env)      // about to ensure the namespace
    | Dating(copy: Env)       // about to check expiry
    | Reporting(copy: Env)    // about to write the status
    | Leaving(copy: Env)      // reconcileDelete: about to look at the namespace
    | Releasing(copy: Env)    // namespace gone: about to remove the finalizer
    | Emptying(copy: Env)     // about to delete the namespace
    | Marking(copy: Env)      // about to set the Terminating phase

  /** `log` holds every informer event ever sent; those from `seen` on are still queued.
      `past` are the values the record has had, which realtime events may still carry. `due` says
      that the operator's work queue holds a request for this object. */
  datatype State = State(
    rec: Record, past: set<Record>,
    env: Option<Env>, ns: Namespace,
    log: seq<Event>, seen: nat, synced: Option<nat>,
    worker: Worker, due: bool, nextUid: nat, nextRv: nat)

  /** What fetching the attempt anew gave. */
  datatype Fetched = Found | Missing | Unreachable

  datatype Label =
    | UserDecommission
    | AdminDelete
    | AdminApply(now: int, ttl: int)
    | Resync(ok: bool, now: int, ttl: int)
    | Realtime(snapshot: Record, fetched: Fetched, ok: bool, now: int, ttl: int)
    | Upstream(ok: bool)
    | InformerResync
    | Operate(ok: bool, now: int, reports: seq<AssetStatus>)
    | Wake
    | NamespaceGone

  const CREATED := Record(New, Provisioned)

  const START := State(CREATED, {CREATED}, None, Absent, [], 0, None, Idle(Finished), false, 0, 0)

  // ---- The API server ----

  /** Store `e` under a new resource version and send the event, to the operator's queue as well. */
  function Store(s: State, e: Env): State {
    var e' := e.(rv := s.nextRv);
    s.(env := Some(e'), log := s.log + [Upsert(e')], due := true, nextRv := s.nextRv + 1)
  }

  function Remove(s: State): State {
    s.(env := None, log := s.log + [Deleted], due := true)
  }

  /** Deletion waits for the finalizer. */
  function ApiDelete(s: State): State {
    match s.env
    case None => s
    case Some(e) =>
      if !e.finalizer then Remove(s)
      else if e.deleting then s
      else Store(s, e.(deleting := true))
  }

  function ApiApply(s: State, now: int, ttl: int): State {
    match s.env
    case None =>
      Store(s.(nextUid := s.nextUid + 1),
            Env(s.nextUid, s.nextRv, false, false, now, ttl, Unset, None, []))
    case Some(e) => if e.ttl == ttl then s else Store(s, e.(ttl := ttl))
  }

  /** An update of `copy` passes the optimistic concurrency check. */
  predicate Current(s: State, copy: Env) {
    s.env.Some? && s.env.value.rv == copy.rv
  }

  function SetRecord(s: State, r: Record): State {
    s.(rec := r, past := s.past + {r})
  }

  // ---- Downstream: record to LabEnvironment ----

  function ReconcileAttempt(s: State, desired: AttemptState, ok: bool, now: int, ttl: int): State {
    if !ok then s
    else if desired == Decommissioned then
      if s.env.None? then SetRecord(s, s.rec.(current := Decommissioned)) else ApiDelete(s)
    else ApiApply(s, now, ttl)
  }

  /** A record that cannot be found is treated as one to decommission. */
  function HandleRealtime(s: State, r: Record, fetched: Fetched, ok: bool, now: int, ttl: int): State {
    if r == Record(Decommissioned, Decommissioned) then s
    else if r.desired == Decommissioned || fetched == Missing then ReconcileAttempt(s, Decommissioned, ok, now, ttl)
    else if fetched == Unreachable then s
    else ReconcileAttempt(s, s.rec.desired, ok, now, ttl)
  }

  // ---- Upstream: LabEnvironment to record ----

  function PhaseToState(p: Phase): AttemptState {
    match p
    case Ready => Provisioned
    case Terminating => Decommissioned
    case _ => Provisioning
  }

  function HandleEvent(s: State, ok: bool): State
    requires s.seen < |s.log|
  {
    var s1 := s.(seen := s.seen + 1);
    match s.log[s.seen]
    case Upsert(e) =>
      if s.synced == Some(e.rv) || e.phase == Unset || !ok then s1
      else SetRecord(s1.(synced := Some(e.rv)), s.rec.(current := PhaseToState(e.phase)))
    case Deleted =>
      var s2 := s1.(synced := None);
      if ok then SetRecord(s2, Record(Decommissioned, Decommissioned)) else s2
  }

  // ---- Operator ----

  /** A reconcile that returns anything but success is queued again. */
  function Rest(s: State, o: Outcome): State {
    s.(worker := Idle(o), due := s.due || o != Finished)
  }

  function PhaseFor(reports: seq<AssetStatus>): Phase {
    var ready := Provisioning.ReadyCount(reports);
    if ready == |reports| then Ready else if ready == 0 then Pending else Degraded
  }

  function PhaseText(p: Phase): string {
    match p
    case Unset => ""
    case Pending => "Pending"
    case Ready => "Ready"
    case Degraded => "Degraded"
    case Terminating => "Terminating"
  }

  /** It is the phase of the status a run writes. */
  lemma PhaseIsReported(reports: seq<AssetStatus>)
    ensures PhaseText(PhaseFor(reports)) == Provisioning.Summary(reports).phase
  {
  }

  function CreateStep(s: State, l: Label): State
    requires l.Operate?
    requires s.worker.Ensuring? || s.worker.Placing? || s.worker.Dating? || s.worker.Reporting?
  {
    var c := s.worker.copy;
    match s.worker
    case Ensuring(_) =>
      if c.finalizer then s.(worker := Placing(c))
      else if l.ok && Current(s, c) then
        var s1 := Store(s, s.env.value.(finalizer := true));
        s1.(worker := Placing(s1.env.value))
      else Rest(s, Failed)
    case Placing(_) =>
      if !l.ok then Rest(s, Failed)
      else s.(ns := if s.ns == Absent then Active else s.ns, worker := Dating(c))
    case Dating(_) =>
      var c1 := if c.expiresAt.None? then c.(expiresAt := Some(c.created + c.ttl)) else c;
      if !l.ok then Rest(s, Failed)
      else if l.now > c1.expiresAt.value then Rest(ApiDelete(s), Finished)
      else s.(worker := Reporting(c1))
    case Reporting(_) =>
      if !l.ok then Rest(s, Failed)
      else if !Current(s, c) then Rest(s, RunAgain)
      else
        var e := s.env.value;
        var e1 := e.(phase := PhaseFor(l.reports), expiresAt := c.expiresAt, assets := l.reports);
        Rest(if e1 == e then s else Store(s, e1), RunAgain)
  }

  function DeleteStep(s: State, l: Label): State
    requires l.Operate?
    requires s.worker.Leaving? || s.worker.Releasing? || s.worker.Emptying? || s.worker.Marking?
  {
    var c := s.worker.copy;
    match s.worker
    case Leaving(_) =>
      if !c.finalizer then Rest(s, Finished)
      else if !l.ok then Rest(s, Failed)
      else if s.ns == Absent then s.(worker := Releasing(c))
      else if s.ns == Active then s.(worker := Emptying(c))
      else s.(worker := Marking(c))
    case Releasing(_) =>
      if l.ok && Current(s, c) then Rest(Remove(s), Finished) else Rest(s, Failed)
    case Emptying(_) =>
      if !l.ok || s.ns == Absent then Rest(s, Failed)
      else s.(ns := Closing, worker := Marking(c))
    case Marking(_) =>
      if c.phase != Terminating && l.ok && Current(s, c)
      then Rest(Store(s, s.env.value.(phase := Terminating)), RunAgain)
      else Rest(s, RunAgain)
  }

  /** The start of a reconcile: the object is fetched. */
  function PickUp(s: State, ok: bool): State {
    if !ok then Rest(s, Failed)
    else if s.env.None? then Rest(s, Finished)
    else if s.env.value.deleting then s.(worker := Leaving(s.env.value))
    else s.(worker := Ensuring(s.env.value))
  }

  function OperatorStep(s: State, l: Label): State
    requires l.Operate?
  {
    match s.worker
    case Idle(_) => if s.due then PickUp(s.(due := false), l.ok) else s
    case Ensuring(_) => CreateStep(s, l)
    case Placing(_) => CreateStep(s, l)
    case Dating(_) => CreateStep(s, l)
    case Reporting(_) => CreateStep(s, l)
    case _ => DeleteStep(s, l)
  }

  // ---- The machine ----

  /** One atomic step; a label that is not enabled changes nothing. */
  function Next(s: State, l: Label): State {
    match l
    case UserDecommission => SetRecord(s, s.rec.(desired := Decommissioned))
    case AdminDelete => ApiDelete(s)
    case AdminApply(now, ttl) => ApiApply(s, now, ttl)
    case Resync(ok, now, ttl) =>
      if s.rec.current == s.rec.desired then s else ReconcileAttempt(s, s.rec.desired, ok, now, ttl)
    case Realtime(r, fetched, ok, now, ttl) =>
      if r in s.past then HandleRealtime(s, r, fetched, ok, now, ttl) else s
    case Upstream(ok) => if s.seen < |s.log| then HandleEvent(s, ok) else s
    case InformerResync =>
      if s.env.Some? && s.seen == |s.log| then s.(log := s.log + [Upsert(s.env.value)]) else s
    case Operate(_, _, _) => OperatorStep(s, l)
    case Wake => s.(due := true)
    case NamespaceGone => if s.ns == Closing then s.(ns := Absent) else s
  }

  function Exec(s: State, ls: seq<Label>): State
    decreases |ls|
  {
    if ls == [] then s else Exec(Next(s, ls[0]), ls[1..])
  }

  lemma {:induction false} ExecAppend(s: State, a: seq<Label>, b: seq<Label>)
    ensures Exec(s, a + b) == Exec(Exec(s, a), b)
    decreases |a|
  {
    if a == [] {
      assert a + b == b;
    } else {
      assert (a + b)[1..] == a[1..] + b;
      ExecAppend(Next(s, a[0]), a[1..], b);
    }
  }

  lemma ExecSnoc(s: State, ls: seq<Label>, l: Label)
    ensures Exec(s, ls + [l]) == Next(Exec(s, ls), l)
  {
    ExecAppend(s, ls, [l]);
    assert Exec(Exec(s, ls), [l]) == Exec(Next(Exec(s, ls), l), []);
  }

  /** Steps of the controllers and of the cluster, as opposed to those of people. */
  predicate IsSystem(l: Label) {
    !l.UserDecommission? && !l.AdminDelete? && !l.AdminApply?
  }

  // ---- Invariants ----

  ghost predicate ObjectsOk(s: State) {
    && (s.ns != Absent ==> s.env.Some? && s.env.value.finalizer)
    && (s.env.Some? ==>
          var e := s.env.value;
          && e.rv < s.nextRv
          && e.uid < s.nextUid
          && (e.deleting ==> e.finalizer)
          && (e.phase == Terminating ==> e.deleting))
  }

  /** The stored object is the one the worker fetched, possibly changed since by others. */
  ghost predicate SameObject(s: State, c: Env) {
    && s.env.Some?
    && s.env.value.uid == c.uid
    && s.env.value.finalizer
    && c.finalizer
  }

  /** Unless it changed, what the worker knows of the object is right. */
  ghost predicate CopyOk(s: State, c: Env) {
    && c.rv < s.nextRv
    && (Current(s, c) ==>
          && s.env.value.uid == c.uid
          && s.env.value.deleting == c.deleting
          && s.env.value.finalizer == c.finalizer
          && (s.env.value.expiresAt.Some? ==> c.expiresAt == s.env.value.expiresAt))
  }

  ghost predicate WorkerOk(s: State) {
    match s.worker
    case Idle(_) => true
    case Ensuring(c) => !c.deleting && CopyOk(s, c) && (c.finalizer ==> SameObject(s, c))
    case Placing(c) => !c.deleting && CopyOk(s, c) && SameObject(s, c)
    case Dating(c) => !c.deleting && CopyOk(s, c) && SameObject(s, c)
    case Reporting(c) => !c.deleting && CopyOk(s, c) && SameObject(s, c) && c.expiresAt.Some?
    case _ =>
      var c := s.worker.copy;
      && c.deleting
      && CopyOk(s, c)
      && SameObject(s, c)
      && s.env.value.deleting
      && (s.worker.Releasing? ==> s.ns == Absent)
  }

  ghost predicate LogOk(s: State) {
    && s.seen <= |s.log|
    && (forall i :: 0 <= i < |s.log| && s.log[i].Upsert? ==> s.log[i].env.rv < s.nextRv)
    && (s.env.Some? ==> s.log != [] && s.log[|s.log| - 1] == Upsert(s.env.value))
    && (s.env.None? ==> s.log == [] || s.log[|s.log| - 1] == Deleted)
    && (forall i, j :: s.env.Some? && 0 <= i <= j < |s.log| && s.log[i].Upsert? && s.log[i].env.rv == s.env.value.rv ==>
          s.log[j] == Upsert(s.env.value))
  }

  /** The version the upstream cache remembers, if still current, is what the record shows. */
  ghost predicate CacheOk(s: State) {
    s.synced.Some? ==>
      && s.synced.value < s.nextRv
      && (s.env.Some? && s.env.value.rv == s.synced.value ==>
            && s.rec.current == PhaseToState(s.env.value.phase)
            && forall j :: s.seen <= j < |s.log| ==> s.log[j] == Upsert(s.env.value))
  }

  ghost predicate RecordOk(s: State) {
    && s.rec in s.past
    && (forall r :: r in s.past && r.desired == Decommissioned ==> s.rec.desired == Decommissioned)
  }

  /** The operator never rests on an object it has not seen in its present form. */
  ghost predicate DueOk(s: State) {
    s.env.Some? ==>
      match s.worker
      case Idle(_) => s.due
      case _ => !Current(s, s.worker.copy) ==> s.due
  }

  ghost predicate Inv(s: State) {
    ObjectsOk(s) && WorkerOk(s) && DueOk(s) && LogOk(s) && CacheOk(s) && RecordOk(s)
  }

  // ---- Every step keeps the invariant ----

  /** What a step that stores a changed object relies on. */
  lemma StoreKeeps(s: State, e: Env)
    requires ObjectsOk(s) && LogOk(s) && CacheOk(s) && RecordOk(s)
    requires e.uid < s.nextUid && (e.deleting ==> e.finalizer) && (e.phase == Terminating ==> e.deleting)
    requires s.env.Some? ==> e.uid == s.env.value.uid && (s.env.value.finalizer ==> e.finalizer)
    requires s.env.None? ==> s.ns == Absent
    ensures var s' := Store(s, e);
            ObjectsOk(s') && LogOk(s') && CacheOk(s') && RecordOk(s')
  {
  }

  lemma RemoveKeeps(s: State)
    requires ObjectsOk(s) && LogOk(s) && CacheOk(s) && RecordOk(s) && s.ns == Absent
    ensures var s' := Remove(s);
            ObjectsOk(s') && LogOk(s') && CacheOk(s') && RecordOk(s')
  {
  }

  /** Changes others make to the object never pull it from under the worker. */
  lemma ApiDeleteKeepsInv(s: State)
    requires Inv(s)
    ensures Inv(ApiDelete(s))
  {
    if s.env.Some? {
      var e := s.env.value;
      if !e.finalizer {
        RemoveKeeps(s);
      } else if !e.deleting {
        StoreKeeps(s, e.(deleting := true));
      }
    }
  }

  lemma ApiApplyKeepsInv(s: State, now: int, ttl: int)
    requires Inv(s)
    ensures Inv(ApiApply(s, now, ttl))
  {
    match s.env
    case None =>
      StoreKeeps(s.(nextUid := s.nextUid + 1), Env(s.nextUid, s.nextRv, false, false, now, ttl, Unset, None, []));
    case Some(e) =>
      StoreKeeps(s, e.(ttl := ttl));
  }

  lemma SetRecordKeepsInv(s: State, r: Record)
    requires Inv(s)
    requires s.rec.desired == Decommissioned ==> r.desired == Decommissioned
    requires s.env.None? || r.current == s.rec.current
    ensures Inv(SetRecord(s, r))
  {
  }

  lemma ReconcileKeepsInv(s: State, desired: AttemptState, ok: bool, now: int, ttl: int)
    requires Inv(s)
    ensures Inv(ReconcileAttempt(s, desired, ok, now, ttl))
  {
    ApiDeleteKeepsInv(s);
    ApiApplyKeepsInv(s, now, ttl);
    if s.env.None? {
      SetRecordKeepsInv(s, s.rec.(current := Decommissioned));
    }
  }

  lemma HandleEventKeepsCache(s: State, ok: bool)
    requires LogOk(s) && CacheOk(s) && s.seen < |s.log|
    ensures CacheOk(HandleEvent(s, ok))
  {
    var s' := HandleEvent(s, ok);
    match s.log[s.seen]
    case Deleted =>
    case Upsert(e) =>
      if s'.synced == Some(e.rv) && s.env.Some? && s.env.value.rv == e.rv {
        assert s.log[s.seen] == Upsert(s.env.value);
        forall j | s'.seen <= j < |s.log|
          ensures s.log[j] == Upsert(s.env.value)
        {
        }
      }
  }

  lemma HandleEventFrame(s: State, ok: bool)
    requires s.seen < |s.log|
    ensures var s' := HandleEvent(s, ok);
            && s'.env == s.env && s'.log == s.log && s'.nextRv == s.nextRv && s'.nextUid == s.nextUid
            && s'.ns == s.ns && s'.worker == s.worker && s'.due == s.due && s'.seen == s.seen + 1
    ensures RecordOk(s) ==> RecordOk(HandleEvent(s, ok))
  {
  }

  /** What the upstream half does not touch stays right. */
  lemma SameObjects(s: State, s': State)
    requires ObjectsOk(s) && WorkerOk(s) && DueOk(s) && LogOk(s)
    requires s'.env == s.env && s'.log == s.log && s'.nextRv == s.nextRv && s'.nextUid == s.nextUid
    requires s'.ns == s.ns && s'.worker == s.worker && s'.due == s.due && s'.seen <= |s.log|
    ensures ObjectsOk(s') && WorkerOk(s') && DueOk(s') && LogOk(s')
  {
  }

  lemma HandleEventKeepsInv(s: State, ok: bool)
    requires Inv(s) && s.seen < |s.log|
    ensures Inv(HandleEvent(s, ok))
  {
    HandleEventKeepsCache(s, ok);
    HandleEventFrame(s, ok);
    SameObjects(s, HandleEvent(s, ok));
  }

  lemma EnsuringKeepsInv(s: State, l: Label)
    requires Inv(s) && l.Operate? && s.worker.Ensuring?
    ensures Inv(CreateStep(s, l))
  {
    if !s.worker.copy.finalizer && l.ok && Current(s, s.worker.copy) {
      StoreKeeps(s, s.env.value.(finalizer := true));
    }
  }

  lemma RestKeepsInv(s: State, o: Outcome)
    requires Inv(s) && (s.env.Some? && o == Finished ==> s.due)
    ensures Inv(Rest(s, o))
  {
  }

  lemma DatingKeepsInv(s: State, l: Label)
    requires Inv(s) && l.Operate? && s.worker.Dating?
    ensures Inv(CreateStep(s, l))
  {
    var c := s.worker.copy;
    var c1 := if c.expiresAt.None? then c.(expiresAt := Some(c.created + c.ttl)) else c;
    if !l.ok {
      RestKeepsInv(s, Failed);
    } else if l.now > c1.expiresAt.value {
      ApiDeleteKeepsInv(s);
      RestKeepsInv(ApiDelete(s), Finished);
    }
  }

  lemma ReportingKeepsInv(s: State, l: Label)
    requires Inv(s) && l.Operate? && s.worker.Reporting?
    ensures Inv(CreateStep(s, l))
  {
    var c := s.worker.copy;
    if l.ok && Current(s, c) {
      StoreKeeps(s, s.env.value.(phase := PhaseFor(l.reports), expiresAt := c.expiresAt, assets := l.reports));
    }
  }

  lemma CreateStepKeepsInv(s: State, l: Label)
    requires Inv(s) && l.Operate?
    requires s.worker.Ensuring? || s.worker.Placing? || s.worker.Dating? || s.worker.Reporting?
    ensures Inv(CreateStep(s, l))
  {
    match s.worker
    case Ensuring(_) => EnsuringKeepsInv(s, l);
    case Placing(_) =>
    case Dating(_) => DatingKeepsInv(s, l);
    case Reporting(_) => ReportingKeepsInv(s, l);
  }

  lemma MarkingKeepsInv(s: State, l: Label)
    requires Inv(s) && l.Operate? && s.worker.Marking?
    ensures Inv(DeleteStep(s, l))
  {
    StoreKeeps(s, s.env.value.(phase := Terminating));
    RestKeepsInv(s, RunAgain);
  }

  lemma LeavingKeepsInv(s: State, l: Label)
    requires Inv(s) && l.Operate? && s.worker.Leaving?
    ensures Inv(DeleteStep(s, l))
  {
    RestKeepsInv(s, Failed);
  }

  lemma ReleasingKeepsInv(s: State, l: Label)
    requires Inv(s) && l.Operate? && s.worker.Releasing?
    ensures Inv(DeleteStep(s, l))
  {
    RemoveKeeps(s);
    RestKeepsInv(s, Failed);
  }

  lemma EmptyingKeepsInv(s: State, l: Label)
    requires Inv(s) && l.Operate? && s.worker.Emptying?
    ensures Inv(DeleteStep(s, l))
  {
    RestKeepsInv(s, Failed);
  }

  lemma DeleteStepKeepsInv(s: State, l: Label)
    requires Inv(s) && l.Operate?
    requires s.worker.Leaving? || s.worker.Releasing? || s.worker.Emptying? || s.worker.Marking?
    ensures Inv(DeleteStep(s, l))
  {
    match s.worker
    case Leaving(_) => LeavingKeepsInv(s, l);
    case Releasing(_) => ReleasingKeepsInv(s, l);
    case Emptying(_) => EmptyingKeepsInv(s, l);
    case Marking(_) => MarkingKeepsInv(s, l);
  }

  lemma PickUpKeepsInv(s: State, ok: bool)
    requires Inv(s) && s.worker.Idle? && s.due
    ensures Inv(PickUp(s.(due := false), ok))
  {
  }

  lemma OperatorStepKeepsInv(s: State, l: Label)
    requires Inv(s) && l.Operate?
    ensures Inv(OperatorStep(s, l))
  {
    match s.worker
    case Idle(_) =>
      if s.due {
        PickUpKeepsInv(s, l.ok);
      }
    case Ensuring(_) => CreateStepKeepsInv(s, l);
    case Placing(_) => CreateStepKeepsInv(s, l);
    case Dating(_) => CreateStepKeepsInv(s, l);
    case Reporting(_) => CreateStepKeepsInv(s, l);
    case _ => DeleteStepKeepsInv(s, l);
  }

  lemma RealtimeKeepsInv(s: State, l: Label)
    requires Inv(s) && l.Realtime?
    ensures Inv(Next(s, l))
  {
    ReconcileKeepsInv(s, s.rec.desired, l.ok, l.now, l.ttl);
    ReconcileKeepsInv(s, Decommissioned, l.ok, l.now, l.ttl);
  }

  lemma QueueKeepsInv(s: State, l: Label)
    requires Inv(s) && (l.InformerResync? || l.Wake? || l.NamespaceGone?)
    ensures Inv(Next(s, l))
  {
  }

  lemma RequestKeepsInv(s: State, l: Label)
    requires Inv(s) && (l.UserDecommission? || l.AdminDelete? || l.AdminApply?)
    ensures Inv(Next(s, l))
  {
    match l
    case UserDecommission => SetRecordKeepsInv(s, s.rec.(desired := Decommissioned));
    case AdminDelete => ApiDeleteKeepsInv(s);
    case AdminApply(now, ttl) => ApiApplyKeepsInv(s, now, ttl);
    case _ =>
  }

  lemma NextKeepsInv(s: State, l: Label)
    requires Inv(s)
    ensures Inv(Next(s, l))
  {
    match l
    case Resync(ok, now, ttl) => ReconcileKeepsInv(s, s.rec.desired, ok, now, ttl);
    case Realtime(_, _, _, _, _) => RealtimeKeepsInv(s, l);
    case Upstream(ok) =>
      if s.seen < |s.log| {
        HandleEventKeepsInv(s, ok);
      }
    case Operate(_, _, _) => OperatorStepKeepsInv(s, l);
    case _ =>
      if l.InformerResync? || l.Wake? || l.NamespaceGone? {
        QueueKeepsInv(s, l);
      } else {
        RequestKeepsInv(s, l);
      }
  }

  lemma {:induction false} ExecKeepsInv(s: State, ls: seq<Label>)
    requires Inv(s)
    ensures Inv(Exec(s, ls))
    decreases |ls|
  {
    if ls != [] {
      NextKeepsInv(s, ls[0]);
      ExecKeepsInv(Next(s, ls[0]), ls[1..]);
    }
  }

  lemma StartIsOk()
    ensures Inv(START)
  {
  }

  // ---- Safety over every run ----

  /** In every reachable state the namespace exists only while its LabEnvironment exists and carries
      the finalizer. */
  lemma NamespaceOwned(ls: seq<Label>)
    ensures var s := Exec(START, ls);
            s.ns != Absent ==> s.env.Some? && s.env.value.finalizer
  {
    StartIsOk();
    ExecKeepsInv(START, ls);
  }

  /** While the finalizer is on the object, a delete reconcile that comes to an end asks to run
      again, unless it just removed the finalizer and with it the object. */
  lemma DeleteAsksAgain(ls: seq<Label>, l: Label)
    requires var s := Exec(START, ls);
             l.Operate? && (s.worker.Leaving? || s.worker.Releasing? || s.worker.Emptying? || s.worker.Marking?)
    ensures var s := Exec(START, ls);
            var s' := Next(s, l);
            && (s'.worker == Idle(Finished) <==> s.env.Some? && s'.env.None?)
            && (s'.worker.Idle? && s'.env.Some? ==> s'.due)
  {
    StartIsOk();
    ExecKeepsInv(START, ls);
  }

  /** The operator loses no work: while the object exists, a resting operator has it in its queue,
      and so has a busy one whose copy is no longer current. */
  lemma NoWorkIsLost(ls: seq<Label>)
    ensures var s := Exec(START, ls);
            s.env.Some? && (s.worker.Idle? || !Current(s, s.worker.copy)) ==> s.due
  {
    StartIsOk();
    ExecKeepsInv(START, ls);
  }

  /** Every writer in the repository leaves a decommissioning request in place. */
  lemma DecommissionSticks(s: State, l: Label)
    requires s.rec.desired == Decommissioned
    ensures Next(s, l).rec.desired == Decommissioned
  {
  }

  lemma {:induction false} DecommissionSticksForever(s: State, ls: seq<Label>)
    requires s.rec.desired == Decommissioned
    ensures Exec(s, ls).rec.desired == Decommissioned
    decreases |ls|
  {
    if ls != [] {
      DecommissionSticks(s, ls[0]);
      DecommissionSticksForever(Next(s, ls[0]), ls[1..]);
    }
  }

  /** If the object is still the same, so is its stored expiry. */
  predicate ExpiryKept(s: State, s': State) {
    s.env.Some? && s.env.value.expiresAt.Some? && s'.env.Some? && s'.env.value.uid == s.env.value.uid ==>
      s'.env.value.expiresAt == s.env.value.expiresAt
  }

  lemma OperatorKeepsExpiry(s: State, l: Label)
    requires Inv(s) && l.Operate?
    ensures ExpiryKept(s, OperatorStep(s, l))
  {
  }

  lemma ReconcileKeepsExpiry(s: State, desired: AttemptState, ok: bool, now: int, ttl: int)
    ensures ExpiryKept(s, ReconcileAttempt(s, desired, ok, now, ttl))
  {
  }

  /** Once stored, the expiry of an object never changes, whatever TTL is applied later. */
  lemma ExpiryIsFixed(s: State, l: Label)
    requires Inv(s) && s.env.Some? && s.env.value.expiresAt.Some?
    ensures var s' := Next(s, l);
            s'.env.Some? && s'.env.value.uid == s.env.value.uid ==>
              s'.env.value.expiresAt == s.env.value.expiresAt
  {
    match l
    case Operate(_, _, _) => OperatorKeepsExpiry(s, l);
    case Resync(ok, now, ttl) => ReconcileKeepsExpiry(s, s.rec.desired, ok, now, ttl);
    case Realtime(_, _, ok, now, ttl) =>
      ReconcileKeepsExpiry(s, s.rec.desired, ok, now, ttl);
      ReconcileKeepsExpiry(s, Decommissioned, ok, now, ttl);
    case _ =>
  }

  // ---- Recovery ----

  ghost predicate Final(s: State) {
    && s.rec == Record(Decommissioned, Decommissioned)
    && s.env.None?
    && s.ns == Absent
    && s.seen == |s.log|
    && s.worker.Idle?
  }

  /** Where the worker stands while the object waits to be deleted. */
  function LeavingRank(s: State): nat
    requires s.env.Some?
  {
    match s.worker
    case Ensuring(_) => 2
    case Placing(_) => 1
    case Dating(_) => 22
    case Reporting(_) => 21
    case Idle(_) => 10
    case Leaving(c) => if s.ns == Absent && !Current(s, c) then 13 else 9
    case Releasing(c) => if Current(s, c) then 8 else 12
    case Emptying(_) => if s.ns == Absent then 20 else 8
    case Marking(_) => 19
  }

  /** How far the namespace is from gone, counting a reconcile that may still create it. */
  function NamespaceRank(s: State): nat {
    if s.worker.Ensuring? || s.worker.Placing? then 4
    else match s.ns case Active => 3 case Closing => 2 case Absent => 1
  }

  /** How far the worker is from writing a first status. */
  function StatusRank(s: State): nat
    requires s.env.Some?
  {
    match s.worker
    case Ensuring(c) => if Current(s, c) then 9 else 19
    case Placing(c) => if Current(s, c) then 8 else 18
    case Dating(c) => if Current(s, c) then 7 else 17
    case Reporting(c) => if Current(s, c) then 6 else 16
    case Idle(_) => 10
    case _ => 20
  }

  function Queued(s: State): nat {
    if s.seen < |s.log| then |s.log| - s.seen else 0
  }

  datatype Rank = Rank(stage: nat, major: nat, minor: nat)

  function RankOf(s: State): Rank {
    match s.env
    case None =>
      Rank(0, if s.worker.Idle? then 0 else 1, 2 * Queued(s) + if s.rec.current == Decommissioned then 0 else 1)
    case Some(e) =>
      if e.deleting then Rank(1, NamespaceRank(s), LeavingRank(s))
      else if s.rec.current != Decommissioned then Rank(2, 0, 0)
      else if e.phase == Unset then Rank(3, 1, StatusRank(s))
      else Rank(3, 0, if Queued(s) == 0 then 2 else Queued(s))
  }

  predicate Lower(a: Rank, b: Rank) {
    || a.stage < b.stage
    || (a.stage == b.stage && a.major < b.major)
    || (a.stage == b.stage && a.major == b.major && a.minor < b.minor)
  }

  /** What a step finds and cannot choose: the time, the TTL of the lab, the state of its assets. */
  datatype Given = Given(now: int, ttl: int, reports: seq<AssetStatus>)

  predicate Enabled(s: State, l: Label) {
    match l
    case Upstream(_) => s.seen < |s.log|
    case Resync(_, _, _) => s.rec.current != s.rec.desired
    case InformerResync => s.env.Some? && s.seen == |s.log|
    case Operate(_, _, _) => s.worker.Idle? ==> s.due
    case NamespaceGone => s.ns == Closing
    case Realtime(r, _, _, _, _) => r in s.past
    case _ => true
  }

  /** A step of the system that makes progress towards the final state, under given circumstances. */
  function RepairStep(s: State, g: Given): Label {
    var work := Operate(true, g.now, g.reports);
    match s.env
    case None =>
      if !s.worker.Idle? then work
      else if s.seen < |s.log| then Upstream(true)
      else Resync(true, g.now, g.ttl)
    case Some(e) =>
      if e.deleting then
        if s.worker.Ensuring? || s.worker.Placing? || s.ns != Closing then work else NamespaceGone
      else if s.rec.current != Decommissioned then Resync(true, g.now, g.ttl)
      else if e.phase == Unset then work
      else if s.seen < |s.log| then Upstream(true)
      else InformerResync
  }

  lemma RepairGone(s: State, g: Given)
    requires Inv(s) && s.rec.desired == Decommissioned && s.env.None? && !Final(s)
    ensures Enabled(s, RepairStep(s, g)) && Lower(RankOf(Next(s, RepairStep(s, g))), RankOf(s))
  {
  }

  lemma RepairDeleting(s: State, g: Given)
    requires Inv(s) && s.env.Some? && s.env.value.deleting
    ensures Enabled(s, RepairStep(s, g)) && Lower(RankOf(Next(s, RepairStep(s, g))), RankOf(s))
  {
  }

  lemma RepairAsking(s: State, g: Given)
    requires Inv(s) && s.rec.desired == Decommissioned && s.env.Some? && !s.env.value.deleting
    requires s.rec.current != Decommissioned
    ensures Enabled(s, RepairStep(s, g)) && Lower(RankOf(Next(s, RepairStep(s, g))), RankOf(s))
  {
    assert RepairStep(s, g) == Resync(true, g.now, g.ttl);
    assert Next(s, RepairStep(s, g)) == ApiDelete(s);
  }

  lemma RepairUnreported(s: State, g: Given)
    requires Inv(s) && s.env.Some? && !s.env.value.deleting
    requires s.rec.current == Decommissioned && s.env.value.phase == Unset
    ensures Enabled(s, RepairStep(s, g)) && Lower(RankOf(Next(s, RepairStep(s, g))), RankOf(s))
  {
    assert RepairStep(s, g) == Operate(true, g.now, g.reports);
  }

  lemma RepairUnsynced(s: State, g: Given)
    requires Inv(s) && s.env.Some? && !s.env.value.deleting
    requires s.rec.current == Decommissioned && s.env.value.phase != Unset && s.seen < |s.log|
    ensures Enabled(s, RepairStep(s, g)) && Lower(RankOf(Next(s, RepairStep(s, g))), RankOf(s))
  {
    assert Next(s, RepairStep(s, g)) == HandleEvent(s, true);
  }

  lemma RepairDrained(s: State, g: Given)
    requires Inv(s) && s.env.Some? && !s.env.value.deleting
    requires s.rec.current == Decommissioned && s.env.value.phase != Unset && s.seen == |s.log|
    ensures Enabled(s, RepairStep(s, g)) && Lower(RankOf(Next(s, RepairStep(s, g))), RankOf(s))
  {
    assert RepairStep(s, g) == InformerResync;
  }

  lemma RepairLive(s: State, g: Given)
    requires Inv(s) && s.rec.desired == Decommissioned && s.env.Some? && !s.env.value.deleting
    ensures Enabled(s, RepairStep(s, g)) && Lower(RankOf(Next(s, RepairStep(s, g))), RankOf(s))
  {
    if s.rec.current != Decommissioned {
      RepairAsking(s, g);
    } else if s.env.value.phase == Unset {
      RepairUnreported(s, g);
    } else if s.seen < |s.log| {
      RepairUnsynced(s, g);
    } else {
      RepairDrained(s, g);
    }
  }

  /** After a decommissioning request, every state short of the final one has an enabled system
      step that lowers the rank, whatever the circumstances. */
  lemma RepairLowersRank(s: State, g: Given)
    requires Inv(s) && s.rec.desired == Decommissioned && !Final(s)
    ensures IsSystem(RepairStep(s, g)) && Enabled(s, RepairStep(s, g))
    ensures Lower(RankOf(Next(s, RepairStep(s, g))), RankOf(s))
  {
    if s.env.None? {
      RepairGone(s, g);
    } else if s.env.value.deleting {
      RepairDeleting(s, g);
    } else {
      RepairLive(s, g);
    }
  }

  /** Every step of `ls` is an enabled step of the system, the i-th in the circumstances `given(n + i)`. */
  ghost predicate Repairs(s: State, ls: seq<Label>, given: nat -> Given, n: nat)
    decreases |ls|
  {
    ls != [] ==>
      && ls[0] == RepairStep(s, given(n))
      && IsSystem(ls[0])
      && Enabled(s, ls[0])
      && Repairs(Next(s, ls[0]), ls[1..], given, n + 1)
  }

  /** So from any such state, whatever failed before and whatever circumstances follow, system steps
      alone reach the final state. */
  lemma {:induction false} Recovery(s: State, given: nat -> Given, n: nat) returns (ls: seq<Label>)
    requires Inv(s) && s.rec.desired == Decommissioned
    ensures Final(Exec(s, ls)) && Repairs(s, ls, given, n)
    decreases RankOf(s).stage, RankOf(s).major, RankOf(s).minor
  {
    if Final(s) {
      ls := [];
    } else {
      var l := RepairStep(s, given(n));
      RepairLowersRank(s, given(n));
      NextKeepsInv(s, l);
      DecommissionSticks(s, l);
      var rest := Recovery(Next(s, l), given, n + 1);
      ls := [l] + rest;
      assert ls[1..] == rest;
    }
  }

  /** Reachable states, a request, any number of further steps and failures, then recovery. */
  lemma DecommissionCompletes(before: seq<Label>, after: seq<Label>, given: nat -> Given) returns (ls: seq<Label>)
    ensures var s := Exec(Next(Exec(START, before), UserDecommission), after);
            Final(Exec(s, ls)) && Repairs(s, ls, given, 0)
  {
    StartIsOk();
    ExecKeepsInv(START, before);
    var s := Next(Exec(START, before), UserDecommission);
    NextKeepsInv(Exec(START, before), UserDecommission);
    ExecKeepsInv(s, after);
    DecommissionSticksForever(s, after);
    ls := Recovery(Exec(s, after), given, 0);
  }

  /** No system step leaves the final state. */
  lemma FinalIsStable(s: State, l: Label)
    requires Inv(s) && Final(s) && IsSystem(l)
    ensures Final(Next(s, l))
  {
  }
}
