/** Clients joining, leaving and being sent grade maps while ingest events come in. */
module Broadcast {
  import opened Grading
  import opened Options

  /** What one client is sent: the snapshot taken when it registered, written when `sentAfter`
      pushes had already reached it (None: not yet written), and the pushes in order. */
  datatype Wire = Wire(snapshot: Grades, pushes: seq<Grades>, sentAfter: Option<nat>) {
    function Received(): seq<Grades> {
      match sentAfter
      case None => pushes
      case Some(k) => if k <= |pushes| then pushes[..k] + [snapshot] + pushes[k..] else pushes
    }
  }

  /** `lost` are the clients whose snapshot write failed and which are not yet deregistered. */
  datatype World = World(grading: State, clients: set<nat>, wires: map<nat, Wire>, lost: set<nat>)

  datatype Label =
    | Ingest(event: Event, broken: set<nat>)
    | Register(conn: nat)
    | SnapshotWritten(conn: nat)
    | SnapshotFailed(conn: nat)
    | Deregister(conn: nat)

  const IDLE := World(START, {}, map[], {})

  function WiresAfter(wires: map<nat, Wire>, to: set<nat>, g: Grades): map<nat, Wire> {
    map c | c in wires :: if c in to then wires[c].(pushes := wires[c].pushes + [g]) else wires[c]
  }

  lemma WiresAfterOne(wires: map<nat, Wire>, to: set<nat>, conn: nat, g: Grades)
    requires conn in wires && conn !in to
    ensures WiresAfter(wires, to, g)[conn := wires[conn].(pushes := wires[conn].pushes + [g])]
            == WiresAfter(wires, to + {conn}, g)
  {
  }

  /** Write `g` to every client; a client whose write fails is dropped. */
  function SendToAll(w: World, g: Grades, broken: set<nat>): World {
    w.(clients := w.clients - broken, wires := WiresAfter(w.wires, w.clients - broken, g))
  }

  predicate Awaiting(w: World, conn: nat) {
    conn in w.wires && w.wires[conn].sentAfter.None? && conn !in w.lost
  }

  /** One atomic step; a label that is not enabled changes nothing. */
  ghost function Next(c: Config, w: World, l: Label): World {
    match l
    case Ingest(e, broken) =>
      var s := Step(c, w.grading, e);
      if s.passed == w.grading.passed then w.(grading := s)
      else SendToAll(w.(grading := s), GradesOf(c.tasks, s.passed), broken)
    case Register(conn) =>
      if conn in w.wires then w
      else w.(clients := w.clients + {conn},
              wires := w.wires[conn := Wire(GradesOf(c.tasks, w.grading.passed), [], None)])
    case SnapshotWritten(conn) =>
      if Awaiting(w, conn) then
        w.(wires := w.wires[conn := w.wires[conn].(sentAfter := Some(|w.wires[conn].pushes|))])
      else w
    case SnapshotFailed(conn) =>
      if Awaiting(w, conn) then w.(lost := w.lost + {conn}) else w
    case Deregister(conn) =>
      if conn in w.wires && !Awaiting(w, conn) then w.(clients := w.clients - {conn}) else w
  }

  ghost function Exec(c: Config, ls: seq<Label>): World {
    if ls == [] then IDLE else Next(c, Exec(c, ls[..|ls| - 1]), ls[|ls| - 1])
  }

  /** Pointwise OR of grade maps. */
  ghost function OrAll(tasks: seq<Task>, msgs: seq<Grades>): Grades {
    map id | id in Ids(tasks) :: exists m :: m in msgs && id in m && m[id]
  }

  /** Everything the client was or still is to be sent. */
  function Due(w: Wire): seq<Grades> {
    if w.sentAfter.None? then w.pushes + [w.snapshot] else w.Received()
  }

  ghost predicate WireOk(w: Wire, current: Grades) {
    && AtMost(w.snapshot, current)
    && (forall m :: m in w.pushes ==> AtMost(m, current))
    && (w.pushes == [] ==> w.snapshot == current)
    && (w.pushes != [] ==> w.pushes[|w.pushes| - 1] == current && w.snapshot != current)
    && (w.sentAfter.Some? ==> w.sentAfter.value <= |w.pushes|)
  }

  ghost predicate Inv(c: Config, w: World) {
    && w.grading.passed <= Ids(c.tasks)
    && w.clients <= w.wires.Keys
    && forall conn :: conn in w.clients ==> WireOk(w.wires[conn], GradesOf(c.tasks, w.grading.passed))
  }

  lemma AtMostBothWays(g: Grades, h: Grades)
    ensures AtMost(g, h) && AtMost(h, g) ==> g == h
  {
    if AtMost(g, h) && AtMost(h, g) {
      assert forall id :: id in g ==> g[id] == h[id];
    }
  }

  lemma WireAfterPush(w: Wire, before: Grades, after: Grades)
    requires WireOk(w, before) && AtMost(before, after) && before != after
    ensures WireOk(w.(pushes := w.pushes + [after]), after)
  {
    AtMostBothWays(before, after);
    assert !AtMost(after, before);
  }

  lemma NextKeepsInv(c: Config, w: World, l: Label)
    requires Inv(c, w)
    ensures Inv(c, Next(c, w, l))
  {
    if l.Ingest? {
      var s := Step(c, w.grading, l.event);
      StepPassed(c, w.grading, l.event);
      GradesGrow(c.tasks, w.grading.passed, s.passed);
      if s.passed != w.grading.passed {
        forall conn | conn in w.clients - l.broken
          ensures WireOk(Next(c, w, l).wires[conn], GradesOf(c.tasks, s.passed))
        {
          WireAfterPush(w.wires[conn], GradesOf(c.tasks, w.grading.passed), GradesOf(c.tasks, s.passed));
        }
      }
    }
  }

  lemma {:induction false} ExecKeepsInv(c: Config, ls: seq<Label>)
    ensures Inv(c, Exec(c, ls))
  {
    if ls != [] {
      ExecKeepsInv(c, ls[..|ls| - 1]);
      NextKeepsInv(c, Exec(c, ls[..|ls| - 1]), ls[|ls| - 1]);
    }
  }

  lemma ReceivedHolds(w: Wire, m: Grades)
    requires w.sentAfter.Some? ==> w.sentAfter.value <= |w.pushes|
    ensures m in Due(w) <==> m in w.pushes || m == w.snapshot
  {
    if w.sentAfter.Some? {
      var k := w.sentAfter.value;
      assert w.pushes == w.pushes[..k] + w.pushes[k..];
      assert m in w.pushes <==> m in w.pushes[..k] || m in w.pushes[k..];
    }
  }

  lemma OrIsCurrent(tasks: seq<Task>, w: Wire, passed: set<string>)
    requires WireOk(w, GradesOf(tasks, passed))
    ensures OrAll(tasks, Due(w)) == GradesOf(tasks, passed)
  {
    var current := GradesOf(tasks, passed);
    forall m
      ensures m in Due(w) <==> m in w.pushes || m == w.snapshot
    {
      ReceivedHolds(w, m);
    }
    assert current in Due(w);
  }

  /** In every interleaving, for every registered client whose snapshot write has not failed, the
      OR of all it was sent, and of its snapshot if that is still to be written, is the current
      grade map. */
  lemma ClientsAreCurrent(c: Config, ls: seq<Label>, conn: nat)
    requires conn in Exec(c, ls).clients - Exec(c, ls).lost
    ensures conn in Exec(c, ls).wires
    ensures OrAll(c.tasks, Due(Exec(c, ls).wires[conn])) == GradesOf(c.tasks, Exec(c, ls).grading.passed)
  {
    ExecKeepsInv(c, ls);
    OrIsCurrent(c.tasks, Exec(c, ls).wires[conn], Exec(c, ls).grading.passed);
  }

  /** A client whose snapshot write failed stays registered until it is removed; what it got is only
      the pushes. They tell it the current map exactly if there was one, or if nothing is passed. */
  lemma LostClientsCurrentIff(c: Config, ls: seq<Label>, conn: nat)
    requires conn in Exec(c, ls).clients * Exec(c, ls).lost
    ensures conn in Exec(c, ls).wires && Exec(c, ls).wires[conn].Received() == Exec(c, ls).wires[conn].pushes
    ensures var pushes := Exec(c, ls).wires[conn].pushes;
            OrAll(c.tasks, pushes) == GradesOf(c.tasks, Exec(c, ls).grading.passed)
            <==> pushes != [] || Exec(c, ls).grading.passed == {}
  {
    ExecKeepsInv(c, ls);
    LostAreUnsent(c, ls);
    PushesAreCurrentIff(c.tasks, Exec(c, ls).wires[conn], Exec(c, ls).grading.passed);
  }

  ghost predicate LostUnsent(w: World) {
    forall conn :: conn in w.lost ==> conn in w.wires && w.wires[conn].sentAfter == None
  }

  lemma NextKeepsLost(c: Config, w: World, l: Label)
    requires LostUnsent(w)
    ensures LostUnsent(Next(c, w, l))
  {
  }

  lemma {:induction false} LostAreUnsent(c: Config, ls: seq<Label>)
    ensures LostUnsent(Exec(c, ls))
  {
    if ls != [] {
      LostAreUnsent(c, ls[..|ls| - 1]);
      NextKeepsLost(c, Exec(c, ls[..|ls| - 1]), ls[|ls| - 1]);
    }
  }

  lemma PushesAreCurrentIff(tasks: seq<Task>, w: Wire, passed: set<string>)
    requires WireOk(w, GradesOf(tasks, passed)) && passed <= Ids(tasks)
    ensures OrAll(tasks, w.pushes) == GradesOf(tasks, passed) <==> w.pushes != [] || passed == {}
  {
    var current := GradesOf(tasks, passed);
    if w.pushes != [] {
      assert current in w.pushes;
      assert OrAll(tasks, w.pushes) == current;
    } else if passed != {} {
      var id :| id in passed;
      assert current[id] && !OrAll(tasks, w.pushes)[id];
    } else {
      assert OrAll(tasks, w.pushes) == current;
    }
  }

  lemma LastReceived(w: Wire)
    requires w.sentAfter.Some? && w.sentAfter.value <= |w.pushes|
    ensures w.Received() != []
    ensures w.Received()[|w.Received()| - 1] ==
            if w.sentAfter.value < |w.pushes| then w.pushes[|w.pushes| - 1] else w.snapshot
  {
    var k := w.sentAfter.value;
    var later := w.pushes[k..];
    if later != [] {
      assert later[|later| - 1] == w.pushes[|w.pushes| - 1];
    }
  }

  lemma LastIsCurrentIff(w: Wire, current: Grades)
    requires WireOk(w, current) && w.sentAfter.Some?
    ensures w.Received() != []
    ensures w.Received()[|w.Received()| - 1] == current
            <==> !(w.pushes != [] && w.sentAfter.value == |w.pushes|)
  {
    LastReceived(w);
  }

  /** The last message of a registered client is the current grade map unless its snapshot was
      written after a push: exactly then it is stale. */
  lemma LastMessageCurrentIff(c: Config, ls: seq<Label>, conn: nat)
    requires conn in Exec(c, ls).clients && conn in Exec(c, ls).wires
    requires Exec(c, ls).wires[conn].sentAfter.Some?
    ensures var w := Exec(c, ls).wires[conn];
            && w.Received() != []
            && (w.Received()[|w.Received()| - 1] == GradesOf(c.tasks, Exec(c, ls).grading.passed)
                <==> !(w.pushes != [] && w.sentAfter.value == |w.pushes|))
  {
    ExecKeepsInv(c, ls);
    LastIsCurrentIff(Exec(c, ls).wires[conn], GradesOf(c.tasks, Exec(c, ls).grading.passed));
  }

  /** A registered client stays so until it leaves or a push to it fails, and is pushed the new grades, and
      nothing else, whenever they change. */
  lemma RegisteredUntil(c: Config, w: World, l: Label, conn: nat)
    requires conn in w.clients && conn in w.wires
    ensures var w' := Next(c, w, l);
            var changed := l.Ingest? && w'.grading.passed != w.grading.passed;
            && conn in w'.wires
            && (conn in w'.clients <==> !(l == Deregister(conn) && !Awaiting(w, conn)) && !(changed && conn in l.broken))
            && (conn in w'.clients ==>
                  w'.wires[conn].pushes ==
                  w.wires[conn].pushes + if changed then [GradesOf(c.tasks, w'.grading.passed)] else [])
  {
    assert w.wires[conn].pushes + [] == w.wires[conn].pushes;
  }

  /** A new client is registered at once, with nothing pushed to it yet. */
  lemma Registers(c: Config, w: World, conn: nat)
    requires conn !in w.wires
    ensures var w' := Next(c, w, Register(conn));
            && w'.clients == w.clients + {conn}
            && conn in w'.wires && w'.wires[conn].pushes == [] && w'.wires[conn].sentAfter == None
  {
  }

  /** Who is not registered after a step is pushed nothing by it: not those who left, nor those whose push
      failed. */
  lemma OthersGetNothing(c: Config, w: World, l: Label, conn: nat)
    requires conn in w.wires && conn !in Next(c, w, l).clients
    ensures conn in Next(c, w, l).wires && Next(c, w, l).wires[conn].pushes == w.wires[conn].pushes
  {
  }

  /** The snapshot is written once, behind what was pushed before, or lost for good. */
  lemma SnapshotOutcome(c: Config, w: World, conn: nat)
    requires conn in w.wires && w.wires[conn].sentAfter == None && conn !in w.lost
    ensures var w' := Next(c, w, SnapshotWritten(conn));
            && w'.clients == w.clients && w'.lost == w.lost && conn in w'.wires
            && w'.wires[conn].Received() == w.wires[conn].Received() + [w.wires[conn].snapshot]
            && forall l :: l in {SnapshotWritten(conn), SnapshotFailed(conn)} ==> Next(c, w', l) == w'
    ensures var w' := Next(c, w, SnapshotFailed(conn));
            && w'.clients == w.clients && w'.wires == w.wires && conn in w'.lost
            && forall l :: l in {SnapshotWritten(conn), SnapshotFailed(conn)} ==> Next(c, w', l) == w'
  {
    var pushes := w.wires[conn].pushes;
    assert pushes[..|pushes|] == pushes && pushes[|pushes|..] == [];
    assert pushes + [w.wires[conn].snapshot] + [] == pushes + [w.wires[conn].snapshot];
  }
}
