/** The backend of grading itself: fields updated in place, each method proved to be one step of
    `Broadcast.Next`. Outcomes of network writes are parameters. */
module GraderBackend {
  import opened Ansi
  import opened LineBuffer
  import opened Grading
  import opened Options
  import opened Broadcast

  class Backend {
    const config: Config
    var regexes: map<string, Regex>
    var assets: map<string, AssetBuffer>
    var grades: map<string, bool>
    var clients: set<nat>
    var wires: map<nat, Wire>
    var lost: set<nat>

    ghost predicate BuffersValid()
      reads this`assets, assets.Values
    {
      && (forall a, b :: a in assets && b in assets && a != b ==> assets[a] != assets[b])
      && forall a :: a in assets ==> assets[a].Valid()
    }

    ghost predicate GradesValid()
      reads this`grades
    {
      forall id :: id in grades ==> grades[id]
    }

    ghost predicate Valid()
      reads this, assets.Values
    {
      && regexes == Compiled(config.tasks, config.compile)
      && BuffersValid()
      && GradesValid()
      && clients <= wires.Keys
    }

    ghost function Buffers(): map<string, Buffer>
      reads this`assets, assets.Values
    {
      map a | a in assets :: assets[a].Value()
    }

    ghost function Value(): World
      reads this, assets.Values
    {
      World(State(Buffers(), grades.Keys), clients, wires, lost)
    }

    constructor (tasks: seq<Task>, compile: string -> Option<Regex>)
      ensures Valid() && Value() == IDLE
      ensures config == Config(tasks, compile) && fresh(assets.Values)
    {
      config := Config(tasks, compile);
      assets, grades, clients, wires, lost := map[], map[], {}, map[], {};
      regexes := map[];
      new;
      for i := 0 to |tasks|
        invariant config == Config(tasks, compile)
        invariant assets == map[] && grades == map[] && clients == {} && wires == map[] && lost == {}
        invariant regexes == Compiled(tasks[..i], compile)
      {
        assert tasks[..i + 1][..i] == tasks[..i];
        match compile(tasks[i].template)
        case None =>
        case Some(re) => regexes := regexes[tasks[i].id := re];
      }
      assert tasks[..|tasks|] == tasks;
    }

    /** Does some buffer's window match? Buffers are visited in any order. */
    method AnyWindowMatches(re: Regex) returns (found: bool)
      ensures found <==> exists a :: a in Buffers() && re(Window(Buffers(), a))
    {
      var keys := assets.Keys;
      found := false;
      while keys != {}
        invariant keys <= assets.Keys
        invariant forall a :: a in assets.Keys - keys ==> !re(Window(Buffers(), a))
        decreases |keys|
      {
        var a :| a in keys;
        var joined := assets[a].Joined();
        if re(joined) {
          assert joined == Window(Buffers(), a);
          return true;
        }
        keys := keys - {a};
      }
    }

    method GradesLocked() returns (out: Grades)
      requires GradesValid()
      ensures out == GradesOf(config.tasks, grades.Keys)
    {
      out := map[];
      for i := 0 to |config.tasks|
        invariant out == GradesOf(config.tasks[..i], grades.Keys)
      {
        var t := config.tasks[i];
        IdsSnoc(config.tasks, i);
        out := out[t.id := t.id in grades && grades[t.id]];
      }
      assert config.tasks[..|config.tasks|] == config.tasks;
    }

    static lemma IdsSnoc(tasks: seq<Task>, i: nat)
      requires i < |tasks|
      ensures Ids(tasks[..i + 1]) == Ids(tasks[..i]) + {tasks[i].id}
    {
      assert forall j :: 0 <= j < i ==> tasks[..i + 1][j] == tasks[..i][j];
      assert tasks[..i + 1][i] == tasks[i];
    }

    /** Send the current grade map to every client; `broken` are the clients whose write fails. */
    method BroadcastLocked(broken: set<nat>)
      requires GradesValid() && clients <= wires.Keys
      modifies this`clients, this`wires
      ensures clients == old(clients) - broken
      ensures wires == WiresAfter(old(wires), clients, GradesOf(config.tasks, grades.Keys))
    {
      var payload := GradesLocked();
      clients, wires := WriteToEach(clients, wires, payload, broken);
    }

    static method WriteToEach(clients: set<nat>, wires: map<nat, Wire>, payload: Grades, broken: set<nat>)
        returns (kept: set<nat>, written: map<nat, Wire>)
      requires clients <= wires.Keys
      ensures kept == clients - broken
      ensures written == WiresAfter(wires, kept, payload)
    {
      kept, written := clients, wires;
      var todo := clients;
      ghost var done: set<nat> := {};
      while todo != {}
        invariant clients == todo + done && todo !! done
        invariant kept == todo + (done - broken)
        invariant written == WiresAfter(wires, done - broken, payload)
        decreases |todo|
      {
        var conn :| conn in todo;
        MoveOne(todo, done, broken, conn);
        todo := todo - {conn};
        if conn in broken {
          kept := kept - {conn};
        } else {
          WiresAfterOne(wires, done - broken, conn, payload);
          written := written[conn := written[conn].(pushes := written[conn].pushes + [payload])];
        }
        done := done + {conn};
      }
      assert done == clients;
    }

    static lemma MoveOne(todo: set<nat>, done: set<nat>, broken: set<nat>, conn: nat)
      requires conn in todo && todo !! done
      ensures todo - {conn} + (done + {conn}) == todo + done && todo - {conn} !! done + {conn}
      ensures conn !in done - broken
      ensures done + {conn} - broken == if conn in broken then done - broken else done - broken + {conn}
      ensures todo - {conn} + (done + {conn} - broken) ==
              if conn in broken then todo + (done - broken) - {conn} else todo + (done - broken)
    {
    }

    static lemma IngestIsNext(c: Config, w: World, e: Event, broken: set<nat>, w': World)
      requires w'.grading == Step(c, w.grading, e) && w'.lost == w.lost
      requires w'.grading.passed == w.grading.passed ==> w'.clients == w.clients && w'.wires == w.wires
      requires w'.grading.passed != w.grading.passed ==>
                 && w'.clients == w.clients - broken
                 && w'.wires == WiresAfter(w.wires, w'.clients, GradesOf(c.tasks, w'.grading.passed))
      ensures w' == Next(c, w, Broadcast.Ingest(e, broken))
    {
    }

    method Ingest(asset: string, chunk: Text, broken: set<nat>)
      requires Valid()
      modifies this, assets.Values
      ensures Valid() && fresh(assets.Values - old(assets.Values))
      ensures Value() == Next(config, old(Value()), Broadcast.Ingest(Event(asset, chunk), broken))
    {
      ghost var w, b := Value(), BufferAt(Buffers(), asset);
      IngestLocked(asset, chunk, broken);
      StepParts(config, w.grading, Event(asset, chunk), b, Buffers(), grades.Keys);
      IngestIsNext(config, w, Event(asset, chunk), broken, Value());
    }

    static lemma StepParts(c: Config, s: State, e: Event, b: Buffer, buffers: map<string, Buffer>, passed: set<string>)
      requires b == BufferAt(s.assets, e.asset) && buffers == s.assets[e.asset := IngestSpec(b, e.chunk)]
      requires passed == s.passed + if CompletesLine(b, e.chunk) then NewlyHit(c, buffers, e.asset) else {}
      ensures State(buffers, passed) == Step(c, s, e)
    {
    }

    /** Clients hear of new grades, and only of those; the ones whose write fails leave. */
    ghost predicate Announced(before: set<string>, now: set<string>, broken: set<nat>,
                              cs: set<nat>, cs': set<nat>, ws: map<nat, Wire>, ws': map<nat, Wire>)
    {
      if now == before then cs' == cs && ws' == ws
      else cs' == cs - broken && ws' == WiresAfter(ws, cs', GradesOf(config.tasks, now))
    }

    /** What happens under the lock, field by field. */
    method IngestLocked(asset: string, chunk: Text, broken: set<nat>)
      requires Valid()
      modifies this, assets.Values
      ensures Valid() && fresh(assets.Values - old(assets.Values)) && lost == old(lost)
      ensures Buffers() == old(Buffers())[asset := IngestSpec(BufferAt(old(Buffers()), asset), chunk)]
      ensures grades.Keys == old(grades.Keys) +
              if CompletesLine(BufferAt(old(Buffers()), asset), chunk) then NewlyHit(config, Buffers(), asset) else {}
      ensures Announced(old(grades.Keys), grades.Keys, broken, old(clients), clients, old(wires), wires)
    {
      var added := IngestChunk(asset, chunk);
      RescanIfAdded(asset, added, broken, if added then NewlyHit(config, Buffers(), asset) else {});
    }

    twostate lemma BuffersKept()
      requires old(BuffersValid()) && assets == old(assets)
      requires forall a :: a in assets ==> unchanged(assets[a])
      ensures BuffersValid() && Buffers() == old(Buffers())
    {
    }

    /** Nothing unless a line was completed; `hit` are then the tasks whose windows match now. */
    method RescanIfAdded(asset: string, added: bool, broken: set<nat>, ghost hit: set<string>)
      requires Valid() && asset in assets
      requires hit == if added then NewlyHit(config, Buffers(), asset) else {}
      modifies this`grades, this`clients, this`wires
      ensures Valid() && Buffers() == old(Buffers())
      ensures grades.Keys == old(grades.Keys) + hit
      ensures Announced(old(grades.Keys), grades.Keys, broken, old(clients), clients, old(wires), wires)
    {
      if added {
        RescanAndSend(asset, broken, hit);
      }
      BuffersKept();
    }

    /** Grade, and broadcast if something changed. */
    method RescanAndSend(asset: string, broken: set<nat>, ghost hit: set<string>)
      requires regexes == Compiled(config.tasks, config.compile)
      requires GradesValid() && asset in assets && clients <= wires.Keys
      requires hit == NewlyHit(config, Buffers(), asset)
      modifies this`grades, this`clients, this`wires
      ensures GradesValid() && clients <= wires.Keys
      ensures grades.Keys == old(grades.Keys) + hit
      ensures Announced(old(grades.Keys), grades.Keys, broken, old(clients), clients, old(wires), wires)
    {
      var changed := Rescan(asset, hit);
      if changed {
        BroadcastLocked(broken);
      }
    }

    /** Feed the chunk to the buffer of `asset`, created if missing. */
    method IngestChunk(asset: string, chunk: Text) returns (added: bool)
      requires BuffersValid()
      modifies this`assets, assets.Values
      ensures BuffersValid() && fresh(assets.Values - old(assets.Values)) && asset in assets
      ensures Buffers() == old(Buffers())[asset := IngestSpec(BufferAt(old(Buffers()), asset), chunk)]
      ensures added == CompletesLine(BufferAt(old(Buffers()), asset), chunk)
    {
      if asset !in assets {
        AddBuffer(asset);
      }
      added := Feed(asset, chunk);
    }

    method AddBuffer(asset: string)
      requires BuffersValid() && asset !in assets
      modifies this`assets
      ensures BuffersValid() && fresh(assets.Values - old(assets.Values)) && asset in assets
      ensures Buffers() == old(Buffers())[asset := EMPTY]
    {
      var buf := new AssetBuffer();
      NewValues(assets, asset, buf);
      assets := assets[asset := buf];
      BuffersAdded(asset, buf);
    }

    twostate lemma BuffersAdded(asset: string, new buf: AssetBuffer)
      requires asset !in old(assets) && assets == old(assets)[asset := buf] && buf.Value() == EMPTY
      requires forall a :: a in old(assets) ==> assets[a].Value() == old(assets[a].Value())
      ensures Buffers() == old(Buffers())[asset := EMPTY]
    {
    }

    static lemma NewValues<V>(m: map<string, V>, key: string, value: V)
      requires key !in m
      ensures m[key := value].Values == m.Values + {value}
    {
      assert forall a :: a in m ==> m[key := value][a] == m[a];
      assert m[key := value][key] == value;
    }

    method Feed(asset: string, chunk: Text) returns (added: bool)
      requires BuffersValid() && asset in assets
      modifies assets.Values
      ensures BuffersValid() && assets == old(assets)
      ensures Buffers() == old(Buffers())[asset := IngestSpec(old(Buffers())[asset], chunk)]
      ensures added == CompletesLine(old(Buffers())[asset], chunk)
    {
      added := assets[asset].Ingest(chunk);
    }

    /** Match every task not yet passed against its relevant windows. */
    method Rescan(asset: string, ghost hit: set<string>) returns (changed: bool)
      requires regexes == Compiled(config.tasks, config.compile)
      requires GradesValid() && asset in assets
      requires hit == NewlyHit(config, Buffers(), asset)
      modifies this`grades
      ensures GradesValid()
      ensures grades.Keys == old(grades.Keys) + hit
      ensures changed <==> grades.Keys != old(grades.Keys)
    {
      changed := false;
      ghost var windows, before := Buffers(), grades.Keys;
      for i := 0 to |config.tasks|
        invariant GradesValid() && Buffers() == windows
        invariant grades.Keys == before + HitsBefore(config, i, windows, asset)
        invariant changed <==> grades.Keys != before
      {
        var passed := RescanAt(i, asset);
        changed := changed || passed;
      }
      HitsBeforeAll(config, windows, asset);
    }

    method RescanAt(i: nat, asset: string) returns (passed: bool)
      requires regexes == Compiled(config.tasks, config.compile)
      requires GradesValid() && asset in assets && i < |config.tasks|
      modifies this`grades
      ensures GradesValid()
      ensures grades.Keys == old(grades.Keys) +
              if HitsTask(config, i, Buffers(), asset) then {config.tasks[i].id} else {}
      ensures passed <==> grades.Keys != old(grades.Keys)
    {
      passed := RescanTask(config.tasks[i], asset);
    }

    method RescanTask(task: Task, asset: string) returns (passed: bool)
      requires GradesValid() && asset in assets
      modifies this`grades
      ensures GradesValid()
      ensures grades.Keys == old(grades.Keys) +
              if task.id in regexes && Hit(task, regexes[task.id], Buffers(), asset) then {task.id} else {}
      ensures passed <==> grades.Keys != old(grades.Keys)
    {
      if task.id in grades && grades[task.id] {
        return false;
      }
      passed := TaskMatches(task, asset);
      if passed {
        grades := grades[task.id := true];
      }
    }

    method TaskMatches(task: Task, asset: string) returns (matched: bool)
      requires asset in assets
      ensures matched <==> task.id in regexes && Hit(task, regexes[task.id], Buffers(), asset)
    {
      if task.id !in regexes {
        return false;
      }
      var re := regexes[task.id];
      if task.asset != "" {
        if task.asset != asset {
          return false;
        }
        var joined := assets[asset].Joined();
        return re(joined);
      }
      matched := AnyWindowMatches(re);
    }

    /** Ids hit among the first `n` tasks. */
    static ghost function HitsBefore(c: Config, n: nat, buffers: map<string, Buffer>, asset: string): set<string>
      requires n <= |c.tasks| && asset in buffers
    {
      if n == 0 then {}
      else HitsBefore(c, n - 1, buffers, asset) + if HitsTask(c, n - 1, buffers, asset) then {c.tasks[n - 1].id} else {}
    }

    static lemma {:induction false} HitBefore(c: Config, n: nat, buffers: map<string, Buffer>, asset: string, id: string)
      requires n <= |c.tasks| && asset in buffers
      ensures id in HitsBefore(c, n, buffers, asset) <==>
              exists j :: 0 <= j < n && HitsTask(c, j, buffers, asset) && c.tasks[j].id == id
    {
      if n > 0 {
        HitBefore(c, n - 1, buffers, asset, id);
      }
    }

    static lemma HitsBeforeAll(c: Config, buffers: map<string, Buffer>, asset: string)
      requires asset in buffers
      ensures HitsBefore(c, |c.tasks|, buffers, asset) == NewlyHit(c, buffers, asset)
    {
      forall id
        ensures id in HitsBefore(c, |c.tasks|, buffers, asset) <==> id in NewlyHit(c, buffers, asset)
      {
        HitBefore(c, |c.tasks|, buffers, asset, id);
      }
    }

    /** First part of serving a connection: register it and take the snapshot. */
    method ServeRegister(conn: nat) returns (payload: Grades)
      requires Valid() && conn !in wires
      modifies this`clients, this`wires
      ensures Valid() && Value() == Next(config, old(Value()), Register(conn))
      ensures payload == Value().wires[conn].snapshot
    {
      clients := clients + {conn};
      payload := GradesLocked();
      wires := wires[conn := Wire(payload, [], None)];
    }

    /** The snapshot write, after the lock was released; `ok` is its outcome. */
    method ServeSnapshot(conn: nat, ok: bool)
      requires Valid() && Awaiting(Value(), conn)
      modifies this`wires, this`lost
      ensures Valid()
      ensures Value() == Next(config, old(Value()), if ok then SnapshotWritten(conn) else SnapshotFailed(conn))
    {
      if ok {
        wires := wires[conn := wires[conn].(sentAfter := Some(|wires[conn].pushes|))];
      } else {
        lost := lost + {conn};
      }
    }

    /** The connection is over, or its snapshot write failed. */
    method ServeDeregister(conn: nat)
      requires Valid() && conn in wires && !Awaiting(Value(), conn)
      modifies this`clients
      ensures Valid() && Value() == Next(config, old(Value()), Deregister(conn))
    {
      clients := clients - {conn};
    }
  }
}
