/** The per-user connection limiter: any number of threads, one step of the lock, load,
    compare-and-swap or add at a time. */
module Limiter {
  /** Where a connection's thread is between its atomic steps. */
  datatype Thread =
    | Searching(user: string, cell: nat)
    | Loaded(user: string, cell: nat, seen: int)
    | Refused(user: string)
    | Holding(user: string)
    | Leaving(user: string, cell: nat)
    | Gone
  {
    /** Acquired and not yet given back. */
    predicate Active(u: string) {
      (Holding? || Leaving?) && user == u
    }
  }

  /** Counter cells on the heap, the map to them, and all threads so far. */
  datatype State = State(cells: seq<int>, counts: map<string, nat>, threads: map<nat, Thread>)

  datatype Label =
    | StartAcquire(thread: nat, user: string)
    | Load(thread: nat)
    | CompareAndSwap(thread: nat)
    | StartRelease(thread: nat)
    | Add(thread: nat)

  const START := State([], map[], map[])

  predicate Enabled(s: State, l: Label) {
    if l.StartAcquire? then l.thread !in s.threads
    else
      && l.thread in s.threads
      && var t := s.threads[l.thread];
         match l
         case Load(_) => t.Searching? && t.cell < |s.cells|
         case CompareAndSwap(_) => t.Loaded? && t.cell < |s.cells|
         case StartRelease(_) => t.Holding?
         case _ => t.Leaving? && t.cell < |s.cells|
  }

  function Moved(s: State, thread: nat, to: Thread): State {
    s.(threads := s.threads[thread := to])
  }

  /** One atomic step; a label that is not enabled changes nothing. */
  function Next(max: int, s: State, l: Label): State {
    if !Enabled(s, l) then s
    else
      match l
      case StartAcquire(i, u) =>
        if u in s.counts then Moved(s, i, Searching(u, s.counts[u]))
        else Moved(s.(cells := s.cells + [0], counts := s.counts[u := |s.cells|]), i, Searching(u, |s.cells|))
      case Load(i) =>
        var t := s.threads[i];
        var cur := s.cells[t.cell];
        Moved(s, i, if cur >= max then Refused(t.user) else Loaded(t.user, t.cell, cur))
      case CompareAndSwap(i) =>
        var t := s.threads[i];
        if s.cells[t.cell] == t.seen
        then Moved(s.(cells := s.cells[t.cell := t.seen + 1]), i, Holding(t.user))
        else Moved(s, i, Searching(t.user, t.cell))
      case StartRelease(i) =>
        var t := s.threads[i];
        Moved(s, i, if t.user in s.counts then Leaving(t.user, s.counts[t.user]) else Gone)
      case Add(i) =>
        var c := s.threads[i].cell;
        Moved(s.(cells := s.cells[c := s.cells[c] - 1]), i, Gone)
  }

  function Run(max: int, s: State, ls: seq<Label>): State {
    if ls == [] then s else Next(max, Run(max, s, ls[..|ls| - 1]), ls[|ls| - 1])
  }

  function Exec(max: int, ls: seq<Label>): State {
    Run(max, START, ls)
  }

  /** The sessions `u` holds. */
  function Sessions(s: State, u: string): set<nat> {
    set i | i in s.threads && s.threads[i].Active(u)
  }

  // ---- The invariant ----

  ghost predicate CellOk(max: int, s: State, u: string) {
    && u in s.counts
    && s.counts[u] < |s.cells|
    && s.cells[s.counts[u]] == |Sessions(s, u)|
    && (|Sessions(s, u)| <= max || |Sessions(s, u)| == 0)
  }

  ghost predicate ThreadOk(max: int, s: State, t: Thread) {
    && (!t.Gone? ==> t.user in s.counts)
    && (t.Searching? || t.Loaded? || t.Leaving? ==> t.cell == s.counts[t.user])
    && (t.Loaded? ==> t.seen < max)
  }

  /** No two users share a cell. */
  ghost predicate OwnCells(counts: map<string, nat>) {
    forall u, v :: u in counts && v in counts && counts[u] == counts[v] ==> u == v
  }

  ghost predicate Inv(max: int, s: State) {
    && (forall u :: u in s.counts ==> CellOk(max, s, u))
    && OwnCells(s.counts)
    && (forall i :: i in s.threads ==> ThreadOk(max, s, s.threads[i]))
  }

  /** A step of one thread changes the sessions of its user only, by that thread. */
  lemma SessionsMoved(s: State, s': State, i: nat, t: Thread, u: string)
    requires s'.threads == s.threads[i := t]
    ensures Sessions(s', u) == if t.Active(u) then Sessions(s, u) + {i} else Sessions(s, u) - {i}
  {
  }

  lemma SameCells(max: int, s: State, s': State, i: nat, t: Thread)
    requires Inv(max, s) && s'.threads == s.threads[i := t]
    requires s'.cells == s.cells && s'.counts == s.counts
    requires forall u :: t.Active(u) <==> i in s.threads && s.threads[i].Active(u)
    requires ThreadOk(max, s', t)
    ensures Inv(max, s')
  {
    forall u | u in s'.counts
      ensures CellOk(max, s', u)
    {
      SessionsMoved(s, s', i, t, u);
      assert Sessions(s', u) == Sessions(s, u);
      assert CellOk(max, s, u);
    }
  }

  /** The cell of the user concerned. */
  lemma OwnCellMoves(max: int, s: State, s': State, i: nat, t: Thread, user: string, step: int)
    requires CellOk(max, s, user) && i in s.threads
    requires s'.threads == s.threads[i := t] && s'.counts == s.counts
    requires s'.cells == s.cells[s.counts[user] := s.cells[s.counts[user]] + step]
    requires step == (if t.Active(user) then 1 else 0) - (if s.threads[i].Active(user) then 1 else 0)
    requires step > 0 ==> s.cells[s.counts[user]] < max
    ensures CellOk(max, s', user)
  {
    SessionsMoved(s, s', i, t, user);
    CountMoves(Sessions(s, user), i, t.Active(user));
  }

  lemma OtherCellStays(max: int, s: State, s': State, i: nat, t: Thread, u: string)
    requires CellOk(max, s, u) && i in s.threads && !t.Active(u) && !s.threads[i].Active(u)
    requires s'.threads == s.threads[i := t] && s'.counts == s.counts
    requires |s'.cells| == |s.cells| && s'.cells[s.counts[u]] == s.cells[s.counts[u]]
    ensures CellOk(max, s', u)
  {
    SessionsMoved(s, s', i, t, u);
    assert Sessions(s', u) == Sessions(s, u);
  }

  /** A cell changes by one together with its user's sessions. */
  lemma CellMoves(max: int, s: State, s': State, i: nat, t: Thread, user: string, step: int)
    requires Inv(max, s) && user in s.counts && s.counts[user] < |s.cells|
    requires s'.threads == s.threads[i := t] && s'.counts == s.counts
    requires s'.cells == s.cells[s.counts[user] := s.cells[s.counts[user]] + step]
    requires i in s.threads && forall u :: u != user ==> !t.Active(u) && !s.threads[i].Active(u)
    requires step == (if t.Active(user) then 1 else 0) - (if s.threads[i].Active(user) then 1 else 0)
    requires step > 0 ==> s.cells[s.counts[user]] < max
    requires ThreadOk(max, s', t)
    ensures Inv(max, s')
  {
    forall u | u in s'.counts
      ensures CellOk(max, s', u)
    {
      assert CellOk(max, s, u);
      if u == user {
        OwnCellMoves(max, s, s', i, t, user, step);
      } else {
        OtherCellStays(max, s, s', i, t, u);
      }
    }
  }

  lemma CountMoves(a: set<nat>, i: nat, in': bool)
    ensures |if in' then a + {i} else a - {i}| == |a| + (if in' then 1 else 0) - (if i in a then 1 else 0)
  {
    assert i in a ==> a + {i} == a;
    assert i !in a ==> a - {i} == a;
  }

  lemma StrangerHasNone(max: int, s: State, user: string)
    requires Inv(max, s) && user !in s.counts
    ensures Sessions(s, user) == {}
  {
    assert forall i :: i in s.threads ==> ThreadOk(max, s, s.threads[i]);
  }

  lemma CellKept(max: int, s: State, s': State, u: string)
    requires CellOk(max, s, u) && Sessions(s', u) == Sessions(s, u)
    requires u in s'.counts && s'.counts[u] == s.counts[u] && s.cells <= s'.cells
    ensures CellOk(max, s', u)
  {
  }

  lemma NewOwnCell(counts: map<string, nat>, user: string, cell: nat)
    requires OwnCells(counts) && forall u :: u in counts ==> counts[u] < cell
    ensures OwnCells(counts[user := cell])
  {
  }

  lemma NewCellOk(max: int, s: State, s': State, i: nat, user: string, u: string)
    requires Inv(max, s) && i !in s.threads && user !in s.counts && u in s'.counts
    requires s' == State(s.cells + [0], s.counts[user := |s.cells|], s.threads[i := Searching(user, |s.cells|)])
    ensures CellOk(max, s', u)
  {
    SessionsMoved(s, s', i, Searching(user, |s.cells|), u);
    assert Sessions(s', u) == Sessions(s, u);
    if u == user {
      StrangerHasNone(max, s, user);
    } else {
      CellKept(max, s, s', u);
    }
  }

  lemma NewCell(max: int, s: State, s': State, i: nat, user: string)
    requires Inv(max, s) && i !in s.threads && user !in s.counts
    requires s' == State(s.cells + [0], s.counts[user := |s.cells|], s.threads[i := Searching(user, |s.cells|)])
    ensures Inv(max, s')
  {
    assert forall u :: u in s.counts ==> CellOk(max, s, u);
    NewOwnCell(s.counts, user, |s.cells|);
    forall u | u in s'.counts
      ensures CellOk(max, s', u)
    {
      NewCellOk(max, s, s', i, user, u);
    }
    forall j | j in s'.threads
      ensures ThreadOk(max, s', s'.threads[j])
    {
      assert j != i ==> ThreadOk(max, s, s.threads[j]);
    }
  }

  lemma NextKeepsInv(max: int, s: State, l: Label)
    requires Inv(max, s)
    ensures Inv(max, Next(max, s, l))
  {
    if Enabled(s, l) {
      var s' := Next(max, s, l);
      var i := l.thread;
      if l.StartAcquire? && l.user !in s.counts {
        NewCell(max, s, s', i, l.user);
      } else if l.StartAcquire? || l.Load? || l.StartRelease? {
        assert i in s.threads ==> ThreadOk(max, s, s.threads[i]);
        SameCells(max, s, s', i, s'.threads[i]);
      } else {
        var t := s.threads[i];
        assert ThreadOk(max, s, t) && CellOk(max, s, t.user);
        if l.CompareAndSwap? && s.cells[t.cell] != t.seen {
          SameCells(max, s, s', i, s'.threads[i]);
        } else {
          CellMoves(max, s, s', i, s'.threads[i], t.user, if l.Add? then -1 else 1);
        }
      }
    }
  }

  lemma {:induction false} ExecKeepsInv(max: int, ls: seq<Label>)
    ensures Inv(max, Exec(max, ls))
  {
    if ls != [] {
      ExecKeepsInv(max, ls[..|ls| - 1]);
      NextKeepsInv(max, Exec(max, ls[..|ls| - 1]), ls[|ls| - 1]);
    }
  }

  // ---- What the limiter promises ----

  /** In every interleaving a user's counter is the number of sessions held, and never above the
      limit (never above zero if the limit is negative). */
  lemma CounterIsSessions(max: int, ls: seq<Label>, u: string)
    ensures var s := Exec(max, ls);
            && (u in s.counts ==> s.counts[u] < |s.cells| && s.cells[s.counts[u]] == |Sessions(s, u)|)
            && (u !in s.counts ==> Sessions(s, u) == {})
            && |Sessions(s, u)| <= if max > 0 then max else 0
  {
    ExecKeepsInv(max, ls);
    var s := Exec(max, ls);
    if u in s.counts {
      assert CellOk(max, s, u);
    } else {
      assert forall i :: i in s.threads ==> ThreadOk(max, s, s.threads[i]);
      assert Sessions(s, u) == {};
    }
  }

  /** An acquire is refused exactly when, at its load, the user held `max` sessions. */
  lemma RefusedIff(max: int, ls: seq<Label>, i: nat)
    requires Enabled(Exec(max, ls), Load(i))
    ensures var s := Exec(max, ls);
            Exec(max, ls + [Load(i)]).threads[i].Refused? <==> |Sessions(s, s.threads[i].user)| >= max
  {
    ExecKeepsInv(max, ls);
    var s := Exec(max, ls);
    assert (ls + [Load(i)])[..|ls|] == ls;
    assert ThreadOk(max, s, s.threads[i]) && CellOk(max, s, s.threads[i].user);
  }

  /** A user's cell is never replaced: all threads of a user share one counter for ever. */
  lemma {:induction false} CellsStay(max: int, ls: seq<Label>, k: nat, u: string)
    requires k <= |ls| && u in Exec(max, ls[..k]).counts
    ensures u in Exec(max, ls).counts && Exec(max, ls).counts[u] == Exec(max, ls[..k]).counts[u]
  {
    if k == |ls| {
      assert ls[..k] == ls;
    } else {
      assert ls[..|ls| - 1][..k] == ls[..k];
      CellsStay(max, ls[..|ls| - 1], k, u);
    }
  }

  /** Every step any thread may take is enabled: no thread that is under way is ever stuck. */
  lemma NobodyIsStuck(max: int, ls: seq<Label>, i: nat)
    requires i in Exec(max, ls).threads
    ensures var s := Exec(max, ls);
            !s.threads[i].Refused? && !s.threads[i].Gone? ==>
              exists l: Label :: l.thread == i && Enabled(s, l) && Next(max, s, l) != s
  {
    ExecKeepsInv(max, ls);
    var s := Exec(max, ls);
    var t := s.threads[i];
    assert ThreadOk(max, s, t);
    if !t.Refused? && !t.Gone? {
      assert CellOk(max, s, t.user);
      var l := if t.Searching? then Load(i) else if t.Loaded? then CompareAndSwap(i)
               else if t.Holding? then StartRelease(i) else Add(i);
      assert Enabled(s, l) && Next(max, s, l).threads[i] != t;
    }
  }

  /** A swap takes effect exactly if the counter is what the thread had loaded; otherwise the thread loads
      again. */
  lemma SwapWinsIff(max: int, s: State, i: nat)
    requires Enabled(s, CompareAndSwap(i))
    ensures var t, s' := s.threads[i], Next(max, s, CompareAndSwap(i));
            if s.cells[t.cell] == t.seen
            then s'.threads[i] == Holding(t.user) && s'.cells == s.cells[t.cell := t.seen + 1]
            else s'.threads[i] == Searching(t.user, t.cell) && s'.cells == s.cells
  {
  }

  lemma SearchAlone(max: int, s: State, i: nat, user: string)
    requires Inv(max, s) && i !in s.threads
    ensures var s' := Next(max, s, StartAcquire(i, user));
            && Sessions(s', user) == Sessions(s, user)
            && CellOk(max, s', user) && i in s'.threads && s'.threads[i] == Searching(user, s'.counts[user])
  {
    NextKeepsInv(max, s, StartAcquire(i, user));
    var s' := Next(max, s, StartAcquire(i, user));
    SessionsMoved(s, s', i, s'.threads[i], user);
    assert CellOk(max, s', user);
  }

  lemma LoadAlone(max: int, s: State, i: nat, user: string)
    requires CellOk(max, s, user) && i in s.threads && s.threads[i] == Searching(user, s.counts[user])
    ensures var s' := Next(max, s, Load(i));
            && Sessions(s', user) == Sessions(s, user) && s'.cells == s.cells && i in s'.threads
            && s'.threads[i] == if |Sessions(s, user)| < max then Loaded(user, s.counts[user], s.cells[s.counts[user]])
                                else Refused(user)
  {
    SessionsMoved(s, Next(max, s, Load(i)), i, Next(max, s, Load(i)).threads[i], user);
  }

  lemma SwapAlone(max: int, s: State, i: nat, user: string, cell: nat)
    requires cell < |s.cells| && i in s.threads
    requires s.threads[i] == Loaded(user, cell, s.cells[cell]) || s.threads[i] == Refused(user)
    ensures var s' := Next(max, s, CompareAndSwap(i));
            && i in s'.threads
            && if s.threads[i].Loaded? then s'.threads[i] == Holding(user) && Sessions(s', user) == Sessions(s, user) + {i}
               else s' == s
  {
    var s' := Next(max, s, CompareAndSwap(i));
    if s.threads[i].Loaded? {
      SessionsMoved(s, s', i, s'.threads[i], user);
    }
  }

  /** An acquire with no step of others in between holds a session exactly if the user held fewer than
      `max`, and is refused otherwise. */
  lemma AcquireAlone(max: int, ls: seq<Label>, i: nat, user: string)
    requires i !in Exec(max, ls).threads
    ensures var s := Exec(max, ls);
            var s' := Next(max, Next(max, Next(max, s, StartAcquire(i, user)), Load(i)), CompareAndSwap(i));
            && i in s'.threads
            && if |Sessions(s, user)| < max then s'.threads[i] == Holding(user) && Sessions(s', user) == Sessions(s, user) + {i}
               else s'.threads[i] == Refused(user) && Sessions(s', user) == Sessions(s, user)
  {
    ExecKeepsInv(max, ls);
    var s := Exec(max, ls);
    SearchAlone(max, s, i, user);
    var s1 := Next(max, s, StartAcquire(i, user));
    LoadAlone(max, s1, i, user);
    SwapAlone(max, Next(max, s1, Load(i)), i, user, s1.counts[user]);
  }

  /** A release gives its own session back and no other. */
  lemma ReleaseAlone(max: int, ls: seq<Label>, i: nat)
    requires i in Exec(max, ls).threads && Exec(max, ls).threads[i].Holding?
    ensures var s := Exec(max, ls);
            var s' := Next(max, Next(max, s, StartRelease(i)), Add(i));
            && i in s'.threads && s'.threads[i] == Gone
            && forall u :: Sessions(s', u) == Sessions(s, u) - {i}
  {
    ExecKeepsInv(max, ls);
    var s := Exec(max, ls);
    assert ThreadOk(max, s, s.threads[i]);
    assert CellOk(max, s, s.threads[i].user);
    var s1 := Next(max, s, StartRelease(i));
    var s2 := Next(max, s1, Add(i));
    forall u
      ensures Sessions(s2, u) == Sessions(s, u) - {i}
    {
      SessionsMoved(s, s1, i, s1.threads[i], u);
      SessionsMoved(s1, s2, i, Gone, u);
    }
  }

  // ---- Retries ----

  predicate Raises(s: State, l: Label) {
    Enabled(s, l) && l.CompareAndSwap? && s.cells[s.threads[l.thread].cell] == s.threads[l.thread].seen
  }

  predicate Lowers(s: State, l: Label) {
    Enabled(s, l) && l.Add?
  }

  predicate FailsSwap(s: State, l: Label, i: nat) {
    Enabled(s, l) && l == CompareAndSwap(i) && s.cells[s.threads[i].cell] != s.threads[i].seen
  }

  /** How often a counter was raised during the run. */
  function Rises(max: int, s: State, ls: seq<Label>): nat {
    if ls == [] then 0
    else
      var before := ls[..|ls| - 1];
      Rises(max, s, before) + if Raises(Run(max, s, before), ls[|ls| - 1]) then 1 else 0
  }

  /** How often one was lowered. */
  function Falls(max: int, s: State, ls: seq<Label>): nat {
    if ls == [] then 0
    else
      var before := ls[..|ls| - 1];
      Falls(max, s, before) + if Lowers(Run(max, s, before), ls[|ls| - 1]) then 1 else 0
  }

  /** How often thread `i` had to retry. */
  function Retries(max: int, ls: seq<Label>, i: nat): nat {
    if ls == [] then 0
    else
      var before := ls[..|ls| - 1];
      Retries(max, before, i) + if FailsSwap(Exec(max, before), ls[|ls| - 1], i) then 1 else 0
  }

  /** Thread `i` has loaded a value that is no longer there. */
  predicate Stale(s: State, i: nat) {
    && i in s.threads && s.threads[i].Loaded? && s.threads[i].cell < |s.cells|
    && s.cells[s.threads[i].cell] != s.threads[i].seen
  }

  lemma StaleStep(max: int, s: State, l: Label, i: nat)
    requires Inv(max, s)
    ensures (if FailsSwap(s, l, i) then 1 else 0) + (if Stale(Next(max, s, l), i) then 1 else 0) <=
            (if Raises(s, l) || Lowers(s, l) then 1 else 0) + (if Stale(s, i) then 1 else 0)
  {
    assert i in s.threads ==> ThreadOk(max, s, s.threads[i]);
    assert i in s.threads && !s.threads[i].Gone? ==> CellOk(max, s, s.threads[i].user);
  }

  /** The retry loop is lock-free: every retry of a thread is paid for by a counter change that
      took effect, so if nothing changes any more no thread keeps retrying. */
  lemma {:induction false} RetriesArePaid(max: int, ls: seq<Label>, i: nat)
    ensures Retries(max, ls, i) + (if Stale(Exec(max, ls), i) then 1 else 0) <=
            Rises(max, START, ls) + Falls(max, START, ls)
  {
    if ls != [] {
      var before := ls[..|ls| - 1];
      RetriesArePaid(max, before, i);
      ExecKeepsInv(max, before);
      StaleStep(max, Exec(max, before), ls[|ls| - 1], i);
    }
  }

  // ---- The total ----

  function SessionsOf(s: State, us: set<string>): set<nat> {
    set i | i in s.threads && !s.threads[i].Gone? && s.threads[i].user in us && s.threads[i].Active(s.threads[i].user)
  }

  lemma SessionsOfOneMore(s: State, us: set<string>, u: string)
    requires u !in us
    ensures |SessionsOf(s, us + {u})| == |SessionsOf(s, us)| + |Sessions(s, u)|
  {
    assert SessionsOf(s, us + {u}) == SessionsOf(s, us) + Sessions(s, u);
    assert SessionsOf(s, us) !! Sessions(s, u);
  }

  /** The threads that hold a session. */
  function Held(s: State): set<nat> {
    set i | i in s.threads && (s.threads[i].Holding? || s.threads[i].Leaving?)
  }

  lemma AllSessions(max: int, s: State)
    requires Inv(max, s)
    ensures SessionsOf(s, s.counts.Keys) == Held(s)
  {
    assert forall i :: i in s.threads ==> ThreadOk(max, s, s.threads[i]);
  }

  lemma ManySessionsMoved(s: State, s': State, i: nat, t: Thread, us: set<string>)
    requires s'.threads == s.threads[i := t]
    ensures SessionsOf(s', us) == if i in SessionsOf(s', us) then SessionsOf(s, us) + {i} else SessionsOf(s, us) - {i}
  {
  }

  lemma WhoMoves(max: int, s: State, l: Label, us: set<string>)
    requires Inv(max, s) && Enabled(s, l)
    ensures var now, before := SessionsOf(Next(max, s, l), us), SessionsOf(s, us);
            && (l.thread in now && l.thread !in before ==> Raises(s, l))
            && (l.thread in before && l.thread !in now ==> Lowers(s, l))
  {
    assert l.thread in s.threads ==> ThreadOk(max, s, s.threads[l.thread]);
  }

  lemma OnlyItsThread(max: int, s: State, l: Label) returns (t: Thread)
    requires Enabled(s, l)
    ensures Next(max, s, l).threads == s.threads[l.thread := t]
  {
    t := Next(max, s, l).threads[l.thread];
  }

  /** A step raises the number of sessions of some users by a counter it raises, and lowers it by one it
      lowers, if at all. */
  lemma StepShifts(max: int, s: State, l: Label, us: set<string>)
    requires Inv(max, s)
    ensures -(if Lowers(s, l) then 1 else 0) <= |SessionsOf(Next(max, s, l), us)| - |SessionsOf(s, us)|
            <= (if Raises(s, l) then 1 else 0)
  {
    if Enabled(s, l) {
      var t := OnlyItsThread(max, s, l);
      WhoMoves(max, s, l, us);
      ManySessionsMoved(s, Next(max, s, l), l.thread, t, us);
      CountMoves(SessionsOf(s, us), l.thread, l.thread in SessionsOf(Next(max, s, l), us));
    }
  }

  ghost predicate Within(n: int, held: int, rises: nat, falls: nat) {
    held - falls <= n <= held + rises
  }

  lemma {:induction false} RunShifts(max: int, s: State, ls: seq<Label>, us: set<string>)
    requires Inv(max, s)
    ensures Inv(max, Run(max, s, ls))
    ensures Within(|SessionsOf(Run(max, s, ls), us)|, |SessionsOf(s, us)|, Rises(max, s, ls), Falls(max, s, ls))
  {
    if ls != [] {
      var before := ls[..|ls| - 1];
      RunShifts(max, s, before, us);
      NextKeepsInv(max, Run(max, s, before), ls[|ls| - 1]);
      StepShifts(max, Run(max, s, before), ls[|ls| - 1], us);
    }
  }

  lemma RunSnoc(max: int, s: State, ls: seq<Label>, l: Label)
    ensures Run(max, s, ls + [l]) == Next(max, Run(max, s, ls), l)
    ensures Rises(max, s, ls + [l]) == Rises(max, s, ls) + if Raises(Run(max, s, ls), l) then 1 else 0
    ensures Falls(max, s, ls + [l]) == Falls(max, s, ls) + if Lowers(Run(max, s, ls), l) then 1 else 0
  {
    assert (ls + [l])[..|ls|] == ls;
  }

  lemma {:induction false} RunAppend(max: int, s: State, a: seq<Label>, b: seq<Label>)
    ensures var m := Run(max, s, a);
            && Run(max, s, a + b) == Run(max, m, b)
            && Rises(max, s, a + b) == Rises(max, s, a) + Rises(max, m, b)
            && Falls(max, s, a + b) == Falls(max, s, a) + Falls(max, m, b)
  {
    if b == [] {
      assert a + b == a;
    } else {
      var init, last := b[..|b| - 1], b[|b| - 1];
      RunAppend(max, s, a, init);
      RunSnoc(max, s, a + init, last);
      RunSnoc(max, Run(max, s, a), init, last);
      assert a + init + [last] == a + b && init + [last] == b;
    }
  }

  /** Steps that do not wait for the lock. */
  predicate Lockless(ls: seq<Label>) {
    forall l :: l in ls ==> l.Load? || l.CompareAndSwap? || l.Add?
  }

  function Joined(lists: seq<seq<Label>>): seq<Label> {
    if lists == [] then [] else Joined(lists[..|lists| - 1]) + lists[|lists| - 1]
  }

  /** While the users of `left` remain to be added: what is added and what they hold. */
  ghost predicate Counting(max: int, start: State, ran: seq<Label>, s: State, left: set<string>, total: int) {
    && Inv(max, s) && s == Run(max, start, ran)
    && Within(total + |SessionsOf(s, left)|, |Held(start)|, Rises(max, start, ran), Falls(max, start, ran))
  }

  lemma OthersCount(max: int, start: State, ran: seq<Label>, s: State, left: set<string>, total: int, ls: seq<Label>)
    requires Counting(max, start, ran, s, left, total)
    ensures Counting(max, start, ran + ls, Run(max, s, ls), left, total)
  {
    RunShifts(max, s, ls, left);
    RunAppend(max, start, ran, ls);
  }

  lemma OneCounted(max: int, start: State, ran: seq<Label>, s: State, left: set<string>, total: int, u: string)
    requires Counting(max, start, ran, s, left, total) && u in left && u in s.counts
    ensures s.counts[u] < |s.cells|
    ensures Counting(max, start, ran, s, left - {u}, total + s.cells[s.counts[u]])
  {
    assert CellOk(max, s, u);
    SessionsOfOneMore(s, left - {u}, u);
    assert left - {u} + {u} == left;
  }

  lemma NothingCounted(max: int, start: State)
    requires Inv(max, start)
    ensures Counting(max, start, [], start, start.counts.Keys, 0)
  {
    AllSessions(max, start);
  }

  lemma AllCounted(max: int, start: State, ran: seq<Label>, s: State, left: set<string>, total: int)
    requires Counting(max, start, ran, s, left, total) && left == {}
    ensures Inv(max, s) && s == Run(max, start, ran)
    ensures Within(total, |Held(start)|, Rises(max, start, ran), Falls(max, start, ran))
  {
    assert SessionsOf(s, {}) == {};
  }

  lemma RunOne(max: int, s: State, ls: seq<Label>, i: nat)
    requires i < |ls|
    ensures Run(max, s, ls[..i + 1]) == Next(max, Run(max, s, ls[..i]), ls[i])
    ensures Lockless(ls) ==> Lockless([ls[i]])
  {
    assert ls[..i + 1][..i] == ls[..i];
    assert ls[i] in ls;
  }

  lemma JoinedOne(lists: seq<seq<Label>>, k: nat)
    requires k < |lists|
    ensures Joined(lists[..k + 1]) == Joined(lists[..k]) + lists[k]
  {
    assert lists[..k + 1][..k] == lists[..k];
  }

  // ---- The limiter's fields ----

  /** One method for each atomic step. */
  class ConnLimiter {
    const max: int
    var cells: seq<int>
    var counts: map<string, nat>
    var threads: map<nat, Thread>

    ghost function Value(): State
      reads this
    {
      State(cells, counts, threads)
    }

    ghost predicate Valid()
      reads this
    {
      Inv(max, Value())
    }

    constructor (max: int)
      ensures Valid() && Value() == START && this.max == max
    {
      this.max := max;
      cells, counts, threads := [], map[], map[];
    }

    /** Under the lock: find or create the user's counter. */
    method FindCounter(i: nat, user: string)
      requires Valid() && i !in threads
      modifies this
      ensures Valid() && Value() == Next(max, old(Value()), StartAcquire(i, user))
    {
      NextKeepsInv(max, Value(), StartAcquire(i, user));
      if user !in counts {
        counts := counts[user := |cells|];
        cells := cells + [0];
      }
      threads := threads[i := Searching(user, counts[user])];
    }

    method LoadCounter(i: nat) returns (refused: bool)
      requires Valid() && i in threads && threads[i].Searching?
      modifies this`threads
      ensures Valid() && Value() == Next(max, old(Value()), Load(i))
      ensures refused <==> |Sessions(old(Value()), old(threads[i].user))| >= max
    {
      NextKeepsInv(max, Value(), Load(i));
      var t := threads[i];
      assert ThreadOk(max, Value(), t) && CellOk(max, Value(), t.user);
      var cur := cells[t.cell];
      refused := cur >= max;
      threads := threads[i := if refused then Refused(t.user) else Loaded(t.user, t.cell, cur)];
    }

    method Swap(i: nat) returns (acquired: bool)
      requires Valid() && i in threads && threads[i].Loaded?
      modifies this`cells, this`threads
      ensures Valid() && Value() == Next(max, old(Value()), CompareAndSwap(i))
      ensures acquired <==> threads[i].Holding?
    {
      NextKeepsInv(max, Value(), CompareAndSwap(i));
      var t := threads[i];
      assert ThreadOk(max, Value(), t) && CellOk(max, Value(), t.user);
      acquired := cells[t.cell] == t.seen;
      if acquired {
        cells := cells[t.cell := t.seen + 1];
      }
      threads := threads[i := if acquired then Holding(t.user) else Searching(t.user, t.cell)];
    }

    method FindForRelease(i: nat) returns (found: bool)
      requires Valid() && i in threads && threads[i].Holding?
      modifies this`threads
      ensures Valid() && Value() == Next(max, old(Value()), StartRelease(i))
      ensures found
    {
      NextKeepsInv(max, Value(), StartRelease(i));
      assert ThreadOk(max, Value(), threads[i]);
      var user := threads[i].user;
      found := user in counts;
      threads := threads[i := if found then Leaving(user, counts[user]) else Gone];
    }

    method AddMinusOne(i: nat)
      requires Valid() && i in threads && threads[i].Leaving?
      modifies this`cells, this`threads
      ensures Valid() && Value() == Next(max, old(Value()), Add(i))
    {
      NextKeepsInv(max, Value(), Add(i));
      var t := threads[i];
      assert ThreadOk(max, Value(), t) && CellOk(max, Value(), t.user);
      cells := cells[t.cell := cells[t.cell] - 1];
      threads := threads[i := Gone];
    }

    method Step(l: Label)
      requires Valid() && Lockless([l])
      modifies this`cells, this`threads
      ensures Valid() && Value() == Next(max, old(Value()), l)
    {
      NextKeepsInv(max, Value(), l);
      assert l in [l];
      var s := Next(max, State(cells, counts, threads), l);
      cells, threads := s.cells, s.threads;
    }

    method Others(ls: seq<Label>)
      requires Valid() && Lockless(ls)
      modifies this`cells, this`threads
      ensures Valid() && Value() == Run(max, old(Value()), ls)
    {
      for i := 0 to |ls|
        invariant Valid() && Value() == Run(max, old(Value()), ls[..i])
      {
        RunOne(max, old(Value()), ls, i);
        Step(ls[i]);
      }
      assert ls[..|ls|] == ls;
    }

    /** The next load, and the steps before it. */
    method AddNext(ls: seq<Label>, left: set<string>, before: int, ghost start: State, ghost ran: seq<Label>)
      returns (rest: set<string>, total: int)
      requires Lockless(ls) && left != {} && left <= counts.Keys
      requires Counting(max, start, ran, Value(), left, before)
      modifies this`cells, this`threads
      ensures rest < left && |rest| == |left| - 1 && Counting(max, start, ran + ls, Value(), rest, total)
    {
      OthersCount(max, start, ran, Value(), left, before, ls);
      Others(ls);
      var u :| u in left;
      OneCounted(max, start, ran + ls, Value(), left, before, u);
      rest, total := left - {u}, before + cells[counts[u]];
    }

    /** Under the lock the counters are loaded one by one, in any order; `others` steps before each
        load. The total differs from the sessions held at the start by no more than what was acquired and
        released meanwhile; without such steps it is their number. */
    method Total(others: seq<seq<Label>>) returns (total: int)
      requires Valid() && |others| == |counts| && forall k :: 0 <= k < |others| ==> Lockless(others[k])
      modifies this`cells, this`threads
      ensures Valid() && Value() == Run(max, old(Value()), Joined(others))
      ensures Within(total, |Held(old(Value()))|,
                     Rises(max, old(Value()), Joined(others)), Falls(max, old(Value()), Joined(others)))
    {
      ghost var start, ran: seq<Label> := Value(), [];
      NothingCounted(max, start);
      total := 0;
      var left, k := counts.Keys, 0;
      while left != {}
        invariant left <= counts.Keys && k + |left| == |others|
        invariant Counting(max, start, ran, Value(), left, total)
        invariant ran == Joined(others[..k])
        decreases left
      {
        JoinedOne(others, k);
        left, total := AddNext(others[k], left, total, start, ran);
        k, ran := k + 1, ran + others[k];
      }
      assert others[..k] == others;
      AllCounted(max, start, ran, Value(), left, total);
    }
  }
}
