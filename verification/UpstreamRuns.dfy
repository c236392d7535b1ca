/** The upstream reconciler on runs of the machine: which event streams arise, and the one case in
    which its cache matters. */
module UpstreamRuns {
  import opened Options
  import opened Lifecycle
  import opened Upstream

  // ---- The streams the operator and the API server produce ----

  ghost predicate HistoryOk(s: State) {
    && Consistent(s.log)
    && forall d :: d in Since(s.log) ==>
         d.rv < s.nextRv && s.env.Some? && Follows(d, s.env.value)
  }

  /** The log grows only by what the stored object became, by its removal, or by a resync of it. */
  ghost predicate Grew(s: State, s': State) {
    || (s'.log == s.log && s'.env == s.env && s'.nextRv == s.nextRv)
    || (s'.log == s.log + [Deleted] && s'.env.None? && s'.nextRv == s.nextRv)
    || (&& s'.env.Some?
        && s'.log == s.log + [Upsert(s'.env.value)]
        && ((s'.env == s.env && s'.nextRv == s.nextRv) ||
            (s'.env.value.rv == s.nextRv && s'.nextRv == s.nextRv + 1)))
  }

  lemma ReconcileGrows(s: State, desired: AttemptState, ok: bool, now: int, ttl: int)
    ensures Grew(s, ReconcileAttempt(s, desired, ok, now, ttl))
  {
  }

  lemma CreateGrows(s: State, l: Label)
    requires l.Operate? && (s.worker.Ensuring? || s.worker.Placing? || s.worker.Dating? || s.worker.Reporting?)
    ensures Grew(s, CreateStep(s, l))
  {
  }

  lemma DeleteGrows(s: State, l: Label)
    requires l.Operate? && (s.worker.Leaving? || s.worker.Releasing? || s.worker.Emptying? || s.worker.Marking?)
    ensures Grew(s, DeleteStep(s, l))
  {
  }

  lemma OperatorGrows(s: State, l: Label)
    requires l.Operate?
    ensures Grew(s, OperatorStep(s, l))
  {
    if s.worker.Ensuring? || s.worker.Placing? || s.worker.Dating? || s.worker.Reporting? {
      CreateGrows(s, l);
    } else if !s.worker.Idle? {
      DeleteGrows(s, l);
    }
  }

  lemma LogGrowth(s: State, l: Label)
    ensures Grew(s, Next(s, l))
  {
    match l
    case Resync(ok, now, ttl) => ReconcileGrows(s, s.rec.desired, ok, now, ttl);
    case Realtime(_, _, ok, now, ttl) =>
      ReconcileGrows(s, s.rec.desired, ok, now, ttl);
      ReconcileGrows(s, Decommissioned, ok, now, ttl);
    case Operate(_, _, _) => OperatorGrows(s, l);
    case _ =>
  }

  lemma NextKeepsVersions(s: State, l: Label)
    requires Inv(s)
    ensures var s' := Next(s, l);
            s'.env.Some? ==> s'.env.value.rv < s'.nextRv
  {
    NextKeepsInv(s, l);
  }

  lemma GrownExpiry(s: State, l: Label)
    requires Inv(s)
    ensures var s' := Next(s, l);
            s.env.Some? && s.env.value.expiresAt.Some? && s'.env.Some? ==>
              s'.env.value.expiresAt == s.env.value.expiresAt
  {
    if s.env.Some? && s.env.value.expiresAt.Some? {
      ExpiryIsFixed(s, l);
    }
  }

  lemma NextKeepsHistory(s: State, l: Label)
    requires Inv(s) && HistoryOk(s)
    ensures HistoryOk(Next(s, l))
  {
    LogGrowth(s, l);
    NextKeepsVersions(s, l);
    GrownExpiry(s, l);
    KeepsHistory(s, Next(s, l));
  }

  lemma KeepsHistory(s: State, s': State)
    requires Grew(s, s') && HistoryOk(s)
    requires s'.env.Some? ==> s'.env.value.rv < s'.nextRv
    requires s.env.Some? && s.env.value.expiresAt.Some? && s'.env.Some? ==>
               s'.env.value.expiresAt == s.env.value.expiresAt
    ensures HistoryOk(s')
  {
    if s'.log != s.log {
      HistoryGrows(s, s');
    }
  }

  lemma HistoryGrows(s: State, s': State)
    requires Grew(s, s') && HistoryOk(s) && s'.log != s.log
    requires s'.env.Some? ==> s'.env.value.rv < s'.nextRv
    requires s.env.Some? && s.env.value.expiresAt.Some? && s'.env.Some? ==>
               s'.env.value.expiresAt == s.env.value.expiresAt
    ensures HistoryOk(s')
  {
    HistorySnoc(s.log, s'.log[|s.log|]);
    forall d | d in Since(s.log) && s'.env.Some?
      ensures Follows(d, s'.env.value)
    {
      assert Follows(d, s.env.value);
    }
  }

  lemma {:induction false} HistoryIsConsistent(s: State, ls: seq<Label>)
    requires Inv(s) && HistoryOk(s)
    ensures HistoryOk(Exec(s, ls))
    decreases |ls|
  {
    if ls != [] {
      NextKeepsInv(s, ls[0]);
      NextKeepsHistory(s, ls[0]);
      HistoryIsConsistent(Next(s, ls[0]), ls[1..]);
    }
  }

  // ---- Runs of the machine ----

  /** The state an attempt is to be brought to by this step, if it reconciles one. */
  function Target(s: State, l: Label): Option<AttemptState> {
    match l
    case Resync(_, _, _) => if s.rec.current == s.rec.desired then None else Some(s.rec.desired)
    case Realtime(r, fetched, _, _, _) =>
      if r !in s.past || r == Record(Decommissioned, Decommissioned) then None
      else if r.desired == Decommissioned || fetched == Missing then Some(Decommissioned)
      else if fetched == Unreachable then None
      else Some(s.rec.desired)
    case _ => None
  }

  /** The downstream half marks the record in this step. */
  predicate Marks(s: State, l: Label) {
    && s.env.None?
    && Target(s, l) == Some(Decommissioned)
    && (if l.Resync? then l.ok else l.Realtime? && l.ok)
  }

  /** What a step of the machine is for the record. */
  function ItemsOf(s: State, l: Label): seq<Item> {
    if l.UserDecommission? then [Decommission]
    else if l.Upstream? && s.seen < |s.log| then [Informer(s.log[s.seen], l.ok)]
    else if Marks(s, l) then [Mark]
    else []
  }

  function ItemsFrom(s: State, ls: seq<Label>): seq<Item>
    decreases |ls|
  {
    if ls == [] then [] else ItemsOf(s, ls[0]) + ItemsFrom(Next(s, ls[0]), ls[1..])
  }

  /** The cached run is where the machine is. */
  ghost predicate Tied(r: Attempt, items: seq<Item>, s: State) {
    var c := CachedRun(r, items);
    && s.seen <= |s.log|
    && EventsOf(items) == s.log[..s.seen]
    && Record(c.record.current, c.record.desired) == s.rec
    && c.lastRV == s.synced
  }

  /** The record and what the upstream half has done are as they were; the log may have grown. */
  predicate RecordKept(s: State, s': State) {
    s'.rec == s.rec && s'.synced == s.synced && s'.seen == s.seen && s.log <= s'.log
  }

  lemma CreateKeepsRecord(s: State, l: Label)
    requires l.Operate? && (s.worker.Ensuring? || s.worker.Placing? || s.worker.Dating? || s.worker.Reporting?)
    ensures RecordKept(s, CreateStep(s, l))
  {
  }

  lemma DeleteKeepsRecord(s: State, l: Label)
    requires l.Operate? && (s.worker.Leaving? || s.worker.Releasing? || s.worker.Emptying? || s.worker.Marking?)
    ensures RecordKept(s, DeleteStep(s, l))
  {
  }

  lemma OperatorKeepsRecord(s: State, l: Label)
    requires l.Operate?
    ensures RecordKept(s, OperatorStep(s, l))
  {
    if s.worker.Ensuring? || s.worker.Placing? || s.worker.Dating? || s.worker.Reporting? {
      CreateKeepsRecord(s, l);
    } else if !s.worker.Idle? {
      DeleteKeepsRecord(s, l);
    }
  }

  lemma ReconcileKeepsRecord(s: State, desired: AttemptState, ok: bool, now: int, ttl: int)
    requires !(ok && desired == Decommissioned && s.env.None?)
    ensures RecordKept(s, ReconcileAttempt(s, desired, ok, now, ttl))
  {
  }

  /** A step that reconciles does so towards its target. */
  lemma TargetIs(s: State, l: Label)
    requires l.Resync? || l.Realtime?
    ensures Next(s, l) ==
            match Target(s, l) case None => s case Some(desired) => ReconcileAttempt(s, desired, l.ok, l.now, l.ttl)
  {
  }

  lemma OtherStepsKeepRecord(s: State, l: Label)
    requires ItemsOf(s, l) == []
    ensures RecordKept(s, Next(s, l))
  {
    if l.Operate? {
      OperatorKeepsRecord(s, l);
    } else if l.Resync? || l.Realtime? {
      TargetIs(s, l);
      if Target(s, l).Some? {
        ReconcileKeepsRecord(s, Target(s, l).value, l.ok, l.now, l.ttl);
      }
    }
  }

  lemma MarkStep(s: State, l: Label)
    requires Marks(s, l)
    ensures Next(s, l) == SetRecord(s, s.rec.(current := Decommissioned))
    ensures !l.UserDecommission? && !l.Upstream?
  {
    TargetIs(s, l);
  }

  lemma TiedSilentStep(r: Attempt, items: seq<Item>, s: State, l: Label)
    requires Tied(r, items, s) && ItemsOf(s, l) == []
    ensures Tied(r, items, Next(s, l))
  {
    OtherStepsKeepRecord(s, l);
    assert Next(s, l).log[..s.seen] == s.log[..s.seen];
  }

  lemma TiedItem(r: Attempt, items: seq<Item>, s: State, s': State, i: Item)
    requires Tied(r, items, s) && s'.log == s.log
    requires var c := CachedStep(CachedRun(r, items), i);
             Record(c.record.current, c.record.desired) == s'.rec && c.lastRV == s'.synced
    requires if i.Informer? then s.seen < |s.log| && s.log[s.seen] == i.event && s'.seen == s.seen + 1
             else s'.seen == s.seen
    ensures Tied(r, items + [i], s')
  {
    EventsSnoc(items, i);
    ModeSnoc(r, items, i);
    if i.Informer? {
      assert s.log[..s.seen + 1] == s.log[..s.seen] + [s.log[s.seen]];
    } else {
      assert EventsOf(items) + [] == EventsOf(items);
    }
  }

  lemma TiedStep(r: Attempt, items: seq<Item>, s: State, l: Label)
    requires Tied(r, items, s)
    ensures Tied(r, items + ItemsOf(s, l), Next(s, l))
  {
    if ItemsOf(s, l) == [] {
      TiedSilentStep(r, items, s, l);
      assert items + [] == items;
    } else {
      if Marks(s, l) {
        MarkStep(s, l);
      }
      TiedItem(r, items, s, Next(s, l), ItemsOf(s, l)[0]);
    }
  }

  lemma {:induction false} TiedRun(r: Attempt, items: seq<Item>, s: State, ls: seq<Label>)
    requires Tied(r, items, s)
    ensures Tied(r, items + ItemsFrom(s, ls), Exec(s, ls))
    decreases |ls|
  {
    if ls == [] {
      assert items + [] == items;
    } else {
      TiedStep(r, items, s, ls[0]);
      TiedRun(r, items + ItemsOf(s, ls[0]), Next(s, ls[0]), ls[1..]);
      assert items + ItemsOf(s, ls[0]) + ItemsFrom(Next(s, ls[0]), ls[1..]) == items + ItemsFrom(s, ls);
    }
  }

  lemma {:induction false} ConsistentPrefix(es: seq<Event>, n: nat)
    requires n <= |es| && Consistent(es)
    ensures Consistent(es[..n])
  {
    if n == |es| {
      assert es[..n] == es;
    } else {
      assert es[..|es| - 1][..n] == es[..n];
      ConsistentPrefix(es[..|es| - 1], n);
    }
  }

  /** The record of a new attempt. */
  predicate IsNew(r: Attempt) {
    Record(r.current, r.desired) == CREATED
  }

  /** On every run of the machine the cached reconciler writes the machine's record, and a cache-free
      one given the same events, marks and requests would have left the same, except that it would
      show an attempt alive exactly when a mark was followed by a skipped version. */
  lemma CacheIsExactOnRunsIff(r: Attempt, ls: seq<Label>)
    requires IsNew(r)
    ensures var items := ItemsFrom(START, ls);
            var a, p := CachedRun(r, items).record, PlainRun(r, items);
            && Record(a.current, a.desired) == Exec(START, ls).rec
            && a.desired == p.desired && a.assets == p.assets && a.expiresAt == p.expiresAt
            && (a.current != p.current <==> MarkThenSkip(r, items))
  {
    StartIsOk();
    HistoryIsConsistent(START, ls);
    var items := ItemsFrom(START, ls);
    assert START.log[..0] == [] && [] + items == items;
    TiedRun(r, [], START, ls);
    ConsistentPrefix(Exec(START, ls).log, Exec(START, ls).seen);
    CacheIsExactIff(r, items);
  }
}
