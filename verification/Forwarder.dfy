/** The fire-and-forget forwarder: concurrent senders, a bounded queue and one connection loop
    that redials with a growing pause. */
module Forwarder {
  const CAPACITY := 256
  const FIRST_PAUSE := 500
  const MAX_PAUSE := 10000

  type Message = string

  /** What became of a message taken from the queue; connections are numbered from one. */
  datatype Fate = Written(conn: nat) | Lost(conn: nat) | Unencodable

  /** Where the connection loop stands. */
  datatype Loop =
    | Checking
    | Dialing
    | Pausing
    | Draining(conn: nat)
    | Writing(conn: nat, msg: Message)
    | Exited

  /** `accepted`, `settled` with its fates, and `wire` (what each connection was given) are
      histories; `failures` counts the dials failed since the last success; pauses are in
      milliseconds. */
  datatype State = State(
    queue: seq<Message>, closing: bool, loop: Loop, backoff: nat,
    accepted: seq<Message>, settled: seq<Message>, fates: seq<Fate>, wire: seq<(nat, Message)>, dialed: nat, failures: nat)

  datatype Label =
    | Send(msg: Message)
    | Close
    | SeeClosed
    | StartDial
    | DialOk
    | DialFails
    | PauseOver
    | Take(encodes: bool)
    | WriteOk
    | WriteFails

  /** Without an address there is no loop to start with. */
  function Start(enabled: bool): State {
    State([], false, if enabled then Checking else Exited, FIRST_PAUSE, [], [], [], [], 0, 0)
  }

  predicate Enabled(enabled: bool, s: State, l: Label) {
    match l
    case Send(_) => enabled && |s.queue| < CAPACITY
    case Close => true
    case SeeClosed => s.closing && (s.loop.Checking? || s.loop.Pausing? || s.loop.Draining?)
    case StartDial => s.loop.Checking? && !s.closing
    case DialOk => s.loop.Dialing?
    case DialFails => s.loop.Dialing?
    case PauseOver => s.loop.Pausing?
    case Take(_) => s.loop.Draining? && s.queue != []
    case WriteOk => s.loop.Writing?
    case WriteFails => s.loop.Writing?
  }

  /** One step; a label that is not enabled changes nothing. Seeing the close while draining ends
      the connection, and the loop then sees it again before dialing. */
  function Next(enabled: bool, s: State, l: Label): State {
    if !Enabled(enabled, s, l) then s
    else
      match l
      case Send(m) => s.(queue := s.queue + [m], accepted := s.accepted + [m])
      case Close => s.(closing := true)
      case SeeClosed => s.(loop := if s.loop.Draining? then Checking else Exited)
      case StartDial => s.(loop := Dialing)
      case DialOk => s.(loop := Draining(s.dialed + 1), dialed := s.dialed + 1, backoff := FIRST_PAUSE, failures := 0)
      case DialFails => s.(loop := Pausing, failures := s.failures + 1)
      case PauseOver => s.(loop := Checking, backoff := if s.backoff < MAX_PAUSE then 2 * s.backoff else s.backoff)
      case Take(encodes) =>
        if encodes then s.(queue := s.queue[1..], loop := Writing(s.loop.conn, s.queue[0]))
        else Settle(s.(queue := s.queue[1..]), s.queue[0], Unencodable)
      case WriteOk =>
        var c := s.loop.conn;
        Settle(s.(loop := Draining(c), wire := s.wire + [(c, s.loop.msg)]), s.loop.msg, Written(c))
      case WriteFails => Settle(s.(loop := Checking), s.loop.msg, Lost(s.loop.conn))
  }

  function Settle(s: State, m: Message, f: Fate): State {
    s.(settled := s.settled + [m], fates := s.fates + [f])
  }

  function ExecFrom(enabled: bool, s: State, ls: seq<Label>): State {
    if ls == [] then s else Next(enabled, ExecFrom(enabled, s, ls[..|ls| - 1]), ls[|ls| - 1])
  }

  function Exec(enabled: bool, ls: seq<Label>): State {
    ExecFrom(enabled, Start(enabled), ls)
  }

  // ---- The invariant ----

  /** The message the loop holds, if any. */
  function InHand(s: State): seq<Message> {
    if s.loop.Writing? then [s.loop.msg] else []
  }

  /** The messages with fate "written", with their connections, in order. */
  function WrittenOf(msgs: seq<Message>, fates: seq<Fate>): seq<(nat, Message)>
    requires |msgs| == |fates|
  {
    if fates == [] then []
    else
      var n := |fates| - 1;
      WrittenOf(msgs[..n], fates[..n]) + if fates[n].Written? then [(fates[n].conn, msgs[n])] else []
  }

  /** Every accepted message is settled, in hand or queued, in that order; what went out is what
      is settled as written. */
  ghost predicate Conserved(s: State) {
    && s.accepted == s.settled + InHand(s) + s.queue
    && |s.settled| == |s.fates|
    && s.wire == WrittenOf(s.settled, s.fates)
    && |s.queue| <= CAPACITY
  }

  function Losses(fates: seq<Fate>, conn: nat): nat {
    if fates == [] then 0
    else Losses(fates[..|fates| - 1], conn) + if fates[|fates| - 1] == Lost(conn) then 1 else 0
  }

  /** The connection in use, if any. */
  predicate Using(s: State, conn: nat) {
    (s.loop.Draining? || s.loop.Writing?) && s.loop.conn == conn
  }

  predicate LossOk(s: State, conn: nat) {
    Losses(s.fates, conn) <= if Using(s, conn) || conn > s.dialed then 0 else 1
  }

  /** A connection loses at most one message, and none while it is in use or not yet dialed. */
  ghost predicate LossesOk(s: State) {
    && (s.loop.Draining? || s.loop.Writing? ==> s.loop.conn == s.dialed)
    && forall c: nat :: LossOk(s, c)
  }

  ghost predicate WireOk(s: State) {
    && (forall i :: 0 <= i < |s.wire| ==> s.wire[i].0 <= s.dialed)
    && (forall i, j :: 0 <= i < j < |s.wire| ==> s.wire[i].0 <= s.wire[j].0)
  }

  function Power(k: nat): nat {
    if k == 0 then 1 else 2 * Power(k - 1)
  }

  function AtMostFive(n: nat): nat {
    if n < 5 then n else 5
  }

  /** The pause follows the number of dials failed in a row. */
  ghost predicate PauseOk(s: State) {
    && (s.loop.Pausing? ==> s.failures > 0)
    && s.backoff <= FIRST_PAUSE * Power(5)
    && (!s.loop.Exited? ==>
          s.backoff == FIRST_PAUSE * Power(AtMostFive(if s.loop.Pausing? then s.failures - 1 else s.failures)))
  }

  ghost predicate Inv(s: State) {
    Conserved(s) && LossesOk(s) && WireOk(s) && PauseOk(s)
  }

  lemma SettleConserves(s: State, q: seq<Message>, loop: Loop, m: Message, f: Fate, wire: seq<(nat, Message)>)
    requires Conserved(s) && |q| <= CAPACITY && !loop.Writing?
    requires s.accepted == s.settled + [m] + q
    requires wire == s.wire + if f.Written? then [(f.conn, m)] else []
    ensures Conserved(Settle(s.(queue := q, loop := loop, wire := wire), m, f))
  {
    assert (s.settled + [m])[..|s.fates|] == s.settled;
    assert (s.fates + [f])[..|s.fates|] == s.fates;
    assert s.settled + [m] == (s.settled + [m]) + [];
  }

  lemma TakeConserves(enabled: bool, s: State, encodes: bool)
    requires Conserved(s) && Enabled(enabled, s, Take(encodes))
    ensures Conserved(Next(enabled, s, Take(encodes)))
  {
    var m, q := s.queue[0], s.queue[1..];
    assert s.settled + [] + s.queue == s.settled + [m] + q;
    if !encodes {
      SettleConserves(s, q, s.loop, m, Unencodable, s.wire);
    }
  }

  lemma SendConserves(enabled: bool, s: State, m: Message)
    requires Conserved(s)
    ensures Conserved(Next(enabled, s, Send(m)))
  {
    assert s.settled + InHand(s) + s.queue + [m] == s.settled + InHand(s) + (s.queue + [m]);
  }

  lemma NextConserves(enabled: bool, s: State, l: Label)
    requires Conserved(s)
    ensures Conserved(Next(enabled, s, l))
  {
    if Enabled(enabled, s, l) {
      match l
      case Send(m) => SendConserves(enabled, s, m);
      case Take(encodes) => TakeConserves(enabled, s, encodes);
      case WriteOk =>
        var c := s.loop.conn;
        SettleConserves(s, s.queue, Draining(c), s.loop.msg, Written(c), s.wire + [(c, s.loop.msg)]);
      case WriteFails => SettleConserves(s, s.queue, Checking, s.loop.msg, Lost(s.loop.conn), s.wire);
      case _ =>
    }
  }

  lemma LossesSnoc(fates: seq<Fate>, f: Fate, conn: nat)
    ensures Losses(fates + [f], conn) == Losses(fates, conn) + if f == Lost(conn) then 1 else 0
  {
    assert (fates + [f])[..|fates|] == fates;
  }

  lemma NextKeepsLoss(enabled: bool, s: State, l: Label, conn: nat)
    requires s.loop.Draining? || s.loop.Writing? ==> s.loop.conn == s.dialed
    requires LossOk(s, conn)
    ensures LossOk(Next(enabled, s, l), conn)
  {
    var s' := Next(enabled, s, l);
    if s'.fates != s.fates {
      LossesSnoc(s.fates, s'.fates[|s.fates|], conn);
    }
  }

  lemma NextKeepsLosses(enabled: bool, s: State, l: Label)
    requires LossesOk(s)
    ensures LossesOk(Next(enabled, s, l))
  {
    forall c: nat
      ensures LossOk(Next(enabled, s, l), c)
    {
      NextKeepsLoss(enabled, s, l, c);
    }
  }

  lemma NextKeepsInv(enabled: bool, s: State, l: Label)
    requires Inv(s)
    ensures Inv(Next(enabled, s, l))
  {
    NextConserves(enabled, s, l);
    NextKeepsLosses(enabled, s, l);
    NextKeepsPause(enabled, s, l);
  }

  lemma NextKeepsPause(enabled: bool, s: State, l: Label)
    requires PauseOk(s)
    ensures PauseOk(Next(enabled, s, l))
  {
    Powers();
    if l.PauseOver? && s.loop.Pausing? {
      var n := AtMostFive(s.failures - 1);
      assert n == 0 || n == 1 || n == 2 || n == 3 || n == 4 || n == 5;
    }
  }

  lemma Powers()
    ensures Power(0) == 1 && Power(1) == 2 && Power(2) == 4 && Power(3) == 8 && Power(4) == 16 && Power(5) == 32
  {
    assert Power(1) == 2 * Power(0);
    assert Power(2) == 2 * Power(1);
    assert Power(3) == 2 * Power(2);
    assert Power(4) == 2 * Power(3);
    assert Power(5) == 2 * Power(4);
  }

  lemma {:induction false} ExecKeepsInv(enabled: bool, ls: seq<Label>)
    ensures Inv(Exec(enabled, ls))
  {
    if ls != [] {
      ExecKeepsInv(enabled, ls[..|ls| - 1]);
      NextKeepsInv(enabled, Exec(enabled, ls[..|ls| - 1]), ls[|ls| - 1]);
    }
  }

  // ---- What the forwarder promises ----

  function CountFate(fates: seq<Fate>, lost: bool): nat {
    if fates == [] then 0
    else
      CountFate(fates[..|fates| - 1], lost) +
      var f := fates[|fates| - 1];
      if (if lost then f.Lost? else f.Unencodable?) then 1 else 0
  }

  lemma {:induction false} FatesAddUp(msgs: seq<Message>, fates: seq<Fate>)
    requires |msgs| == |fates|
    ensures |fates| == |WrittenOf(msgs, fates)| + CountFate(fates, true) + CountFate(fates, false)
  {
    if fates != [] {
      FatesAddUp(msgs[..|fates| - 1], fates[..|fates| - 1]);
    }
  }

  /** Accepted messages are written, lost, not encodable, in hand or queued; the queue holds at
      most 256. */
  lemma NothingVanishes(enabled: bool, ls: seq<Label>)
    ensures var s := Exec(enabled, ls);
            && |s.accepted| == |s.wire| + CountFate(s.fates, true) + CountFate(s.fates, false) + |InHand(s)| + |s.queue|
            && |s.queue| <= CAPACITY
  {
    ExecKeepsInv(enabled, ls);
    FatesAddUp(Exec(enabled, ls).settled, Exec(enabled, ls).fates);
  }

  /** Positions of the written messages among all settled ones. */
  lemma {:induction false} WrittenPositions(msgs: seq<Message>, fates: seq<Fate>) returns (at: seq<nat>)
    requires |msgs| == |fates|
    ensures |at| == |WrittenOf(msgs, fates)|
    ensures forall i :: 0 <= i < |at| ==> at[i] < |msgs| && WrittenOf(msgs, fates)[i].1 == msgs[at[i]]
    ensures forall i, j :: 0 <= i < j < |at| ==> at[i] < at[j]
  {
    if fates == [] {
      at := [];
    } else {
      var n := |fates| - 1;
      at := WrittenPositions(msgs[..n], fates[..n]);
      if fates[n].Written? {
        at := at + [n];
      }
    }
  }

  /** Connections are given an in-order subsequence of what was accepted, each message at most
      once, and one connection after the other. */
  lemma WrittenInOrder(enabled: bool, ls: seq<Label>) returns (at: seq<nat>)
    ensures var s := Exec(enabled, ls);
            && |at| == |s.wire|
            && (forall i :: 0 <= i < |at| ==> at[i] < |s.accepted| && s.wire[i].1 == s.accepted[at[i]])
            && (forall i, j :: 0 <= i < j < |at| ==> at[i] < at[j] && s.wire[i].0 <= s.wire[j].0)
  {
    ExecKeepsInv(enabled, ls);
    var s := Exec(enabled, ls);
    at := WrittenPositions(s.settled, s.fates);
  }

  /** A connection costs at most one message, none before it is dropped. */
  lemma OneLossPerConnection(enabled: bool, ls: seq<Label>, conn: nat)
    ensures Losses(Exec(enabled, ls).fates, conn) <= if Using(Exec(enabled, ls), conn) then 0 else 1
  {
    ExecKeepsInv(enabled, ls);
    assert LossOk(Exec(enabled, ls), conn);
  }

  /** The pause after the n-th failed dial in a row is 500 ms doubled n - 1 times, but at most five
      times: it grows past the declared 10 s and stays at 16 s. */
  lemma PauseAfterFailures(enabled: bool, ls: seq<Label>)
    ensures var s := Exec(enabled, ls);
            && (s.loop.Pausing? ==> s.failures > 0 && s.backoff == FIRST_PAUSE * Power(AtMostFive(s.failures - 1)))
            && s.backoff <= 16000
            && (s.loop.Pausing? && s.failures > 5 ==> s.backoff == 16000)
  {
    ExecKeepsInv(enabled, ls);
    Powers();
    var n := AtMostFive(Exec(enabled, ls).failures);
    assert n == 0 || n == 1 || n == 2 || n == 3 || n == 4 || n == 5;
  }

  /** `Close` returns once the loop has exited; from then on nothing is dialed, taken or written,
      whatever is still sent. */
  lemma {:induction false} SilentAfterExit(enabled: bool, s: State, ls: seq<Label>)
    requires s.loop.Exited?
    ensures var s' := ExecFrom(enabled, s, ls);
            && s'.loop.Exited? && s'.dialed == s.dialed
            && s'.wire == s.wire && s'.settled == s.settled && s'.fates == s.fates
  {
    if ls != [] {
      SilentAfterExit(enabled, s, ls[..|ls| - 1]);
    }
  }

  /** After `Close` was called no dial is started; one that is under way may still connect and
      messages may still be written until the loop notices. */
  lemma {:induction false} NoDialAfterClose(enabled: bool, s: State, ls: seq<Label>)
    requires s.closing
    ensures var s' := ExecFrom(enabled, s, ls);
            && s'.closing
            && s'.dialed + (if s'.loop.Dialing? then 1 else 0) <= s.dialed + (if s.loop.Dialing? then 1 else 0)
  {
    if ls != [] {
      NoDialAfterClose(enabled, s, ls[..|ls| - 1]);
    }
  }

  /** With an address a message is taken, at the end of the queue, whenever fewer than 256 wait; else it is
      dropped, and nothing changes. */
  lemma SendIsTakenIff(enabled: bool, s: State, m: Message)
    ensures var s' := Next(enabled, s, Send(m));
            if enabled && |s.queue| < 256 then s' == s.(queue := s.queue + [m], accepted := s.accepted + [m])
            else s' == s
  {
  }

  // ---- Delivery ----

  function Messages(wire: seq<(nat, Message)>): (r: seq<Message>)
    ensures |r| == |wire| && forall i :: 0 <= i < |wire| ==> r[i] == wire[i].1
  {
    seq(|wire|, i requires 0 <= i < |wire| => wire[i].1)
  }

  lemma {:induction false} ExecFromAppend(enabled: bool, s: State, a: seq<Label>, b: seq<Label>)
    ensures ExecFrom(enabled, s, a + b) == ExecFrom(enabled, ExecFrom(enabled, s, a), b)
  {
    if b == [] {
      assert a + b == a;
    } else {
      ExecFromAppend(enabled, s, a, b[..|b| - 1]);
      assert (a + b)[..|a + b| - 1] == a + b[..|b| - 1];
    }
  }

  lemma ExecFromOne(enabled: bool, s: State, l: Label, rest: seq<Label>)
    ensures ExecFrom(enabled, s, [l] + rest) == ExecFrom(enabled, Next(enabled, s, l), rest)
  {
    ExecFromAppend(enabled, s, [l], rest);
    assert [l][..0] == [];
  }

  /** What the loop does while the network works, nobody closes it and messages can be encoded. */
  predicate Works(l: Label) {
    l in {PauseOver, StartDial, DialOk, Take(true), WriteOk}
  }

  ghost predicate AllWork(enabled: bool, s: State, ls: seq<Label>)
    decreases |ls|
  {
    ls != [] ==> Works(ls[0]) && Enabled(enabled, s, ls[0]) && AllWork(enabled, Next(enabled, s, ls[0]), ls[1..])
  }

  lemma OneWorks(enabled: bool, s: State, l: Label, rest: seq<Label>)
    requires Works(l) && Enabled(enabled, s, l) && AllWork(enabled, Next(enabled, s, l), rest)
    ensures AllWork(enabled, s, [l] + rest)
    ensures ExecFrom(enabled, s, [l] + rest) == ExecFrom(enabled, Next(enabled, s, l), rest)
  {
    assert ([l] + rest)[1..] == rest;
    ExecFromOne(enabled, s, l, rest);
  }

  /** What is still to be written. */
  function Waiting(s: State): seq<Message> {
    InHand(s) + s.queue
  }

  function WorkRank(s: State): nat {
    match s.loop
    case Pausing => 2 * |s.queue| + 5
    case Checking => 2 * |s.queue| + 4
    case Dialing => 2 * |s.queue| + 3
    case Writing(_, _) => 2 * |s.queue| + 1
    case Draining(_) => 2 * |s.queue|
    case Exited => 0
  }

  function NextWork(s: State): Label {
    match s.loop
    case Pausing => PauseOver
    case Checking => StartDial
    case Dialing => DialOk
    case Writing(_, _) => WriteOk
    case _ => Take(true)
  }

  lemma WorkStep(enabled: bool, s: State)
    requires !s.loop.Exited? && !s.closing && !(s.loop.Draining? && s.queue == [])
    ensures var l, s' := NextWork(s), Next(enabled, s, NextWork(s));
            && Works(l) && Enabled(enabled, s, l) && WorkRank(s') < WorkRank(s)
            && !s'.loop.Exited? && !s'.closing
            && Messages(s'.wire) + Waiting(s') == Messages(s.wire) + Waiting(s)
  {
    if s.loop.Writing? {
      assert Messages(s.wire + [(s.loop.conn, s.loop.msg)]) == Messages(s.wire) + [s.loop.msg];
    } else if s.loop.Draining? {
      assert [s.queue[0]] + s.queue[1..] == s.queue;
    }
  }

  /** While the network works, all that waits is written, in order, and nothing is lost; the loop then
      waits for more on an open connection. */
  lemma {:induction false} AllIsWritten(enabled: bool, s: State) returns (ls: seq<Label>)
    requires !s.loop.Exited? && !s.closing
    ensures AllWork(enabled, s, ls)
    ensures var s' := ExecFrom(enabled, s, ls);
            s'.loop.Draining? && s'.queue == [] && Messages(s'.wire) == Messages(s.wire) + Waiting(s)
    decreases WorkRank(s)
  {
    if s.loop.Draining? && s.queue == [] {
      ls := [];
      assert Waiting(s) == [];
    } else {
      WorkStep(enabled, s);
      var s' := Next(enabled, s, NextWork(s));
      var rest := AllIsWritten(enabled, s');
      OneWorks(enabled, s, NextWork(s), rest);
      ls := [NextWork(s)] + rest;
    }
  }

  // ---- Closing ----

  function NextExit(s: State): Label {
    match s.loop
    case Dialing => DialFails
    case Writing(_, _) => WriteFails
    case _ => SeeClosed
  }

  lemma ClosedEnds(enabled: bool, s: State) returns (ls: seq<Label>)
    requires s.closing && !s.loop.Exited?
    ensures |ls| <= 2 && ExecFrom(enabled, s, ls).loop.Exited? && ExecFrom(enabled, s, ls).queue == s.queue
  {
    var s1 := Next(enabled, s, NextExit(s));
    ls := if s1.loop.Exited? then [NextExit(s)] else [NextExit(s), NextExit(s1)];
    ExecFromOne(enabled, s, NextExit(s), []);
    ExecFromOne(enabled, s, NextExit(s), [NextExit(s1)]);
    ExecFromOne(enabled, s1, NextExit(s1), []);
    assert [NextExit(s)] + [] == [NextExit(s)];
    assert [NextExit(s1)] + [] == [NextExit(s1)];
    assert [NextExit(s)] + [NextExit(s1)] == [NextExit(s), NextExit(s1)];
  }

  /** Once `Close` is called, the loop can leave after what it is doing, without taking a further message. */
  lemma CloseEnds(enabled: bool, s: State) returns (ls: seq<Label>)
    requires !s.loop.Exited?
    ensures |ls| <= 2
    ensures var s' := ExecFrom(enabled, s, [Close] + ls);
            s'.closing && s'.loop.Exited? && s'.queue == s.queue
  {
    ls := ClosedEnds(enabled, Next(enabled, s, Close));
    ExecFromOne(enabled, s, Close, ls);
    NoDialAfterClose(enabled, Next(enabled, s, Close), ls);
  }

  /** Without an address nothing is ever taken or dialed. */
  lemma {:induction false} NothingWithoutAddress(ls: seq<Label>)
    ensures var s := Exec(false, ls);
            s.loop.Exited? && s.accepted == [] && s.queue == [] && s.dialed == 0 && s.wire == []
  {
    if ls != [] {
      NothingWithoutAddress(ls[..|ls| - 1]);
    }
  }

  /** With one, what is sent to a new forwarder is written once the network works. */
  lemma NewForwarderWrites(m: Message) returns (ls: seq<Label>)
    ensures var s := Exec(true, [Send(m)] + ls);
            s.accepted == [m] && Messages(s.wire) == [m]
  {
    var s := Next(true, Start(true), Send(m));
    ls := AllIsWritten(true, s);
    ExecFromOne(true, Start(true), Send(m), ls);
    WorkAccepts(true, s, ls);
    assert Messages(s.wire) + Waiting(s) == [m];
  }

  lemma {:induction false} WorkAccepts(enabled: bool, s: State, ls: seq<Label>)
    requires AllWork(enabled, s, ls)
    ensures ExecFrom(enabled, s, ls).accepted == s.accepted
    decreases |ls|
  {
    if ls != [] {
      WorkAccepts(enabled, Next(enabled, s, ls[0]), ls[1..]);
      ExecFromOne(enabled, s, ls[0], ls[1..]);
      assert [ls[0]] + ls[1..] == ls;
    }
  }

  // ---- The forwarder's fields ----

  /** One method for each thing a sender, the closer or the connection loop does; what the
      network, the timer and a choice between two ready channels decide are parameters. The
      invariant of all runs is `ExecKeepsInv`. */
  class Forwarder {
    const enabled: bool
    var queue: seq<Message>
    var closing: bool
    var loop: Loop
    var backoff: nat
    var dialed: nat
    ghost var accepted: seq<Message>
    ghost var settled: seq<Message>
    ghost var fates: seq<Fate>
    ghost var wire: seq<(nat, Message)>
    ghost var failures: nat

    ghost function Value(): State
      reads this
    {
      State(queue, closing, loop, backoff, accepted, settled, fates, wire, dialed, failures)
    }

    constructor (address: string)
      ensures enabled == (address != "") && Value() == Start(enabled)
    {
      enabled := address != "";
      queue, closing, loop, backoff, dialed := [], false, if address != "" then Checking else Exited, FIRST_PAUSE, 0;
      accepted, settled, fates, wire, failures := [], [], [], [], 0;
    }

    /** Never waits: a full queue drops the message. */
    method Enqueue(m: Message)
      modifies this`queue, this`accepted
      ensures Value() == Next(enabled, old(Value()), Send(m))
    {
      if !enabled {
        return;
      }
      if |queue| < CAPACITY {
        queue := queue + [m];
        accepted := accepted + [m];
      }
    }

    method RequestClose()
      modifies this`closing
      ensures Value() == Next(enabled, old(Value()), Close)
    {
      closing := true;
    }

    /** The top of the loop: leave if closed, dial otherwise. */
    method CheckClosed()
      requires loop.Checking?
      modifies this`loop
      ensures Value() == Next(enabled, old(Value()), if closing then SeeClosed else StartDial)
    {
      loop := if closing then Exited else Dialing;
    }

    method DialReturns(ok: bool)
      requires loop.Dialing?
      modifies this`loop, this`backoff, this`dialed, this`failures
      ensures Value() == Next(enabled, old(Value()), if ok then DialOk else DialFails)
    {
      if !ok {
        failures := failures + 1;
        loop := Pausing;
        return;
      }
      backoff := FIRST_PAUSE;
      failures := 0;
      dialed := dialed + 1;
      loop := Draining(dialed);
    }

    /** The pause ends by the timer or, if it is closed, by the close. */
    method Pause(byClose: bool)
      requires loop.Pausing? && (byClose ==> closing)
      modifies this`loop, this`backoff
      ensures Value() == Next(enabled, old(Value()), if byClose then SeeClosed else PauseOver)
    {
      if byClose {
        loop := Exited;
        return;
      }
      if backoff < MAX_PAUSE {
        backoff := backoff * 2;
      }
      loop := Checking;
    }

    /** Between two writes: either channel that is ready may be picked. */
    method PickNext(byClose: bool, encodes: bool)
      requires loop.Draining? && (if byClose then closing else queue != [])
      modifies this`loop, this`queue, this`settled, this`fates
      ensures Value() == Next(enabled, old(Value()), if byClose then SeeClosed else Take(encodes))
    {
      if byClose {
        loop := Checking;
        return;
      }
      var m := queue[0];
      queue := queue[1..];
      if encodes {
        loop := Writing(loop.conn, m);
      } else {
        settled, fates := settled + [m], fates + [Unencodable];
      }
    }

    method WriteReturns(ok: bool)
      requires loop.Writing?
      modifies this`loop, this`settled, this`fates, this`wire
      ensures Value() == Next(enabled, old(Value()), if ok then WriteOk else WriteFails)
    {
      settled := settled + [loop.msg];
      if ok {
        fates, wire := fates + [Written(loop.conn)], wire + [(loop.conn, loop.msg)];
        loop := Draining(loop.conn);
      } else {
        fates := fates + [Lost(loop.conn)];
        loop := Checking;
      }
    }
  }
}
