/** What one run of the operator creates in a lab namespace and what it reports. */
module Provisioning {
  import opened Options
  import opened Strings

  // ---- Cluster objects ----

  datatype Container = Waiting(reason: string) | Terminated(reason: string) | Running

  datatype Condition = Condition(kind: string, status: string)

  datatype Pod = Pod(phase: string, deleting: bool, containers: seq<Container>, conditions: seq<Condition>)

  /** The relays' services select their own deployments, a headless one the pod of an asset. */
  datatype Service = Relay | Headless(asset: string)

  datatype Asset = Asset(name: string, protocols: seq<string>)

  datatype AssetStatus = AssetStatus(
    name: string, phase: string, reason: string, ready: bool, protocols: seq<string>, address: string)

  datatype Status = Status(assets: seq<AssetStatus>, total: nat, ready: nat, text: string, phase: string, waiting: seq<string>)

  datatype World = World(pods: map<string, Pod>, services: map<string, Service>)

  /** Calls that may fail, for the asset with the given index. */
  datatype Call = EnsureRelay | EnsureGrader | GetPod | LoadImage | CreatePod | CreateService | ReadPod | UpdateStatus

  type Faults = (Call, nat) -> bool

  /** A pod as the API server stores it before the kubelet has seen it. */
  const NEW_POD := Pod("Pending", false, [], [])

  const RELAYS := {"relay", "relay-grader"}

  // ---- Reading a pod ----

  function Reason(containers: seq<Container>): string {
    if containers == [] then ""
    else
      match containers[0]
      case Waiting(r) => r
      case Terminated(r) => r
      case Running => Reason(containers[1..])
  }

  /** The container that gives the reason: the first one that does not run. */
  ghost predicate FirstStopped(containers: seq<Container>, i: nat) {
    i < |containers| && !containers[i].Running? && forall j :: 0 <= j < i ==> containers[j].Running?
  }

  lemma {:induction false} ReasonIs(containers: seq<Container>) returns (i: nat)
    ensures i == |containers| || FirstStopped(containers, i)
    ensures i == |containers| ==> Reason(containers) == "" && forall j :: 0 <= j < i ==> containers[j].Running?
    ensures i < |containers| ==> Reason(containers) == containers[i].reason
  {
    if containers == [] || !containers[0].Running? {
      i := 0;
    } else {
      i := ReasonIs(containers[1..]);
      i := i + 1;
    }
  }

  method ContainerReason(pod: Pod) returns (r: string)
    ensures r == Reason(pod.containers)
  {
    for i := 0 to |pod.containers|
      invariant Reason(pod.containers[i..]) == Reason(pod.containers)
    {
      match pod.containers[i] {
        case Waiting(reason) => return reason;
        case Terminated(reason) => return reason;
        case Running =>
      }
    }
    r := "";
  }

  /** The first readiness condition decides. */
  ghost predicate PodReady(conditions: seq<Condition>) {
    exists i :: 0 <= i < |conditions| && conditions[i] == Condition("Ready", "True") && NoneReadyBefore(conditions, i)
  }

  ghost predicate NoneReadyBefore(conditions: seq<Condition>, n: nat)
    requires n <= |conditions|
  {
    forall j :: 0 <= j < n ==> conditions[j].kind != "Ready"
  }

  method IsPodReady(pod: Pod) returns (ready: bool)
    ensures ready <==> PodReady(pod.conditions)
  {
    for i := 0 to |pod.conditions|
      invariant NoneReadyBefore(pod.conditions, i)
    {
      if pod.conditions[i].kind == "Ready" {
        ready := pod.conditions[i].status == "True";
        assert ready ==> pod.conditions[i] == Condition("Ready", "True");
        return;
      }
    }
    ready := false;
  }

  // ---- What a run without error leaves ----

  function Names(assets: seq<Asset>): set<string> {
    set i | 0 <= i < |assets| :: assets[i].name
  }

  function WithPods(pods: map<string, Pod>, names: set<string>): map<string, Pod> {
    map n | n in pods.Keys + names :: if n in pods then pods[n] else NEW_POD
  }

  function WithRelays(services: map<string, Service>): map<string, Service> {
    map n | n in services.Keys + RELAYS :: if n in services then services[n] else Relay
  }

  function WithServices(services: map<string, Service>, names: set<string>): map<string, Service> {
    map n | n in services.Keys + names :: if n in services then services[n] else Headless(n)
  }

  function Provisioned(w: World, assets: seq<Asset>): World {
    World(WithPods(w.pods, Names(assets)), WithServices(WithRelays(w.services), Names(assets)))
  }

  ghost function StatusOf(ns: string, a: Asset, pod: Option<Pod>): AssetStatus {
    var address := a.name + "." + ns + ".svc.cluster.local";
    match pod
    case None => AssetStatus(a.name, "Pending", "", false, a.protocols, address)
    case Some(p) =>
      AssetStatus(a.name, if p.deleting then "Terminating" else p.phase, Reason(p.containers),
                  PodReady(p.conditions), a.protocols, address)
  }

  /** The pod the status is computed from; reading it back may fail. */
  function Seen(pods: map<string, Pod>, name: string, blind: bool): Option<Pod> {
    if name in pods && !blind then Some(pods[name]) else None
  }

  ghost function Reports(ns: string, pods: map<string, Pod>, assets: seq<Asset>, fails: Faults): (r: seq<AssetStatus>)
    ensures |r| == |assets|
    ensures forall i :: 0 <= i < |assets| ==>
              r[i] == StatusOf(ns, assets[i], Seen(pods, assets[i].name, fails(ReadPod, i)))
  {
    if assets == [] then []
    else
      var n := |assets| - 1;
      Reports(ns, pods, assets[..n], fails) +
      [StatusOf(ns, assets[n], Seen(pods, assets[n].name, fails(ReadPod, n)))]
  }

  /** The same reads of pods fail. */
  predicate SameReads(fails: Faults, later: Faults, n: nat) {
    forall i :: 0 <= i < n ==> fails(ReadPod, i) == later(ReadPod, i)
  }

  lemma {:induction false} SameReports(ns: string, pods: map<string, Pod>, assets: seq<Asset>, fails: Faults, later: Faults)
    requires SameReads(fails, later, |assets|)
    ensures Reports(ns, pods, assets, fails) == Reports(ns, pods, assets, later)
  {
    assert forall i :: 0 <= i < |assets| ==>
        Reports(ns, pods, assets, fails)[i] == Reports(ns, pods, assets, later)[i];
  }

  function ReadyCount(rs: seq<AssetStatus>): (n: nat)
    ensures n <= |rs|
  {
    if rs == [] then 0 else ReadyCount(rs[..|rs| - 1]) + if rs[|rs| - 1].ready then 1 else 0
  }

  function WaitingFor(rs: seq<AssetStatus>): seq<string> {
    if rs == [] then []
    else
      var last := rs[|rs| - 1];
      WaitingFor(rs[..|rs| - 1]) + if last.ready then [] else [last.name + " - " + last.reason]
  }

  function PhaseOf(ready: nat, total: nat): string {
    if ready == total then "Ready" else if ready == 0 then "Pending" else "Degraded"
  }

  /** All of the status a run writes, from what it saw of each asset. */
  function Summary(rs: seq<AssetStatus>): Status {
    var n := ReadyCount(rs);
    Status(rs, |rs|, n, Dec(n) + "/" + Dec(|rs|), PhaseOf(n, |rs|), WaitingFor(rs))
  }

  ghost predicate AllReady(rs: seq<AssetStatus>) {
    forall i :: 0 <= i < |rs| ==> rs[i].ready
  }

  ghost predicate NoneReady(rs: seq<AssetStatus>) {
    forall i :: 0 <= i < |rs| ==> !rs[i].ready
  }

  lemma {:induction false} CountMeans(rs: seq<AssetStatus>)
    ensures ReadyCount(rs) == |rs| <==> AllReady(rs)
    ensures ReadyCount(rs) == 0 <==> NoneReady(rs)
    ensures |WaitingFor(rs)| == |rs| - ReadyCount(rs)
  {
    if rs != [] {
      var n := |rs| - 1;
      CountMeans(rs[..n]);
      assert AllReady(rs) <==> AllReady(rs[..n]) && rs[n].ready;
      assert NoneReady(rs) <==> NoneReady(rs[..n]) && !rs[n].ready;
    }
  }

  /** An environment is ready if all its assets are, also if it has none; pending if it has some and
      none is; degraded otherwise. It waits for exactly the assets that are not ready. */
  lemma PhaseMeans(rs: seq<AssetStatus>)
    ensures var s := Summary(rs);
            && (s.phase == "Ready" <==> AllReady(rs))
            && (s.phase == "Pending" <==> rs != [] && NoneReady(rs))
            && (s.phase == "Degraded" <==> !AllReady(rs) && !NoneReady(rs))
            && |s.waiting| == s.total - s.ready
  {
    CountMeans(rs);
  }

  /** `at` are the positions of the assets that are not ready, in order, and `waiting` the lines about
      them. */
  ghost predicate WaitsAt(rs: seq<AssetStatus>, waiting: seq<string>, at: seq<nat>) {
    && |at| == |waiting|
    && (forall i, j :: 0 <= i < j < |at| ==> at[i] < at[j])
    && (forall k :: 0 <= k < |rs| ==> (k in at <==> !rs[k].ready))
    && forall i :: 0 <= i < |at| ==> at[i] < |rs| && waiting[i] == rs[at[i]].name + " - " + rs[at[i]].reason
  }

  lemma WaitsMore(rs: seq<AssetStatus>, waiting: seq<string>, at: seq<nat>, r: AssetStatus)
    requires WaitsAt(rs, waiting, at)
    ensures if r.ready then WaitsAt(rs + [r], waiting, at)
            else WaitsAt(rs + [r], waiting + [r.name + " - " + r.reason], at + [|rs|])
  {
    var all := rs + [r];
    assert all[|rs|] == r;
    assert forall i :: 0 <= i < |at| ==> at[i] in at && all[at[i]] == rs[at[i]];
  }

  lemma {:induction false} WaitingAt(rs: seq<AssetStatus>) returns (at: seq<nat>)
    ensures WaitsAt(rs, WaitingFor(rs), at)
  {
    if rs == [] {
      at := [];
    } else {
      var n := |rs| - 1;
      at := WaitingAt(rs[..n]);
      WaitsMore(rs[..n], WaitingFor(rs[..n]), at, rs[n]);
      assert rs[..n] + [rs[n]] == rs;
      if rs[n].ready {
        assert WaitingFor(rs[..n]) + [] == WaitingFor(rs[..n]);
      } else {
        at := at + [n];
      }
    }
  }

  function ReadyOnes(rs: seq<AssetStatus>): set<nat> {
    set i: nat | i < |rs| && rs[i].ready
  }

  lemma {:induction false} CountIs(rs: seq<AssetStatus>)
    ensures ReadyCount(rs) == |ReadyOnes(rs)|
  {
    if rs != [] {
      var n := |rs| - 1;
      CountIs(rs[..n]);
      assert ReadyOnes(rs) == ReadyOnes(rs[..n]) + if rs[n].ready then {n} else {};
    }
  }

  /** The summary holds the reports themselves, the number of assets and of ready ones, both also as text,
      and a line for each asset that is not ready, in order. */
  lemma SummaryTells(rs: seq<AssetStatus>) returns (ready: string, total: string, at: seq<nat>)
    ensures var s := Summary(rs);
            && s.assets == rs && s.total == |rs| && s.ready == |ReadyOnes(rs)|
            && s.text == ready + "/" + total
            && IsDigits(ready) && Value(ready) == s.ready && IsDigits(total) && Value(total) == s.total
            && WaitsAt(rs, s.waiting, at)
  {
    CountIs(rs);
    ready, total := Dec(ReadyCount(rs)), Dec(|rs|);
    DecValue(ReadyCount(rs));
    DecValue(|rs|);
    at := WaitingAt(rs);
  }

  /** What is told of an asset: of its pod if that could be read, otherwise that it is still to come. */
  ghost predicate Tells(r: AssetStatus, ns: string, a: Asset, pod: Option<Pod>) {
    && r.name == a.name && r.protocols == a.protocols
    && r.address == a.name + "." + ns + ".svc.cluster.local"
    && match pod
       case None => r.phase == "Pending" && r.reason == "" && !r.ready
       case Some(p) =>
         && (if p.deleting then r.phase == "Terminating" else r.phase == p.phase)
         && (r.ready <==> PodReady(p.conditions))
         && (forall i: nat :: FirstStopped(p.containers, i) ==> r.reason == p.containers[i].reason)
         && ((forall i :: 0 <= i < |p.containers| ==> p.containers[i].Running?) ==> r.reason == "")
  }

  lemma StatusTells(ns: string, a: Asset, pod: Option<Pod>)
    ensures Tells(StatusOf(ns, a, pod), ns, a, pod)
  {
    if pod.Some? {
      var i := ReasonIs(pod.value.containers);
      forall j: nat | FirstStopped(pod.value.containers, j)
        ensures j == i
      {
        assert i < |pod.value.containers| ==> FirstStopped(pod.value.containers, i);
      }
    }
  }

  /** One report for each asset, in order. */
  lemma ReportsTell(ns: string, pods: map<string, Pod>, assets: seq<Asset>, fails: Faults)
    ensures var rs := Reports(ns, pods, assets, fails);
            && |rs| == |assets|
            && forall i :: 0 <= i < |assets| ==>
                 Tells(rs[i], ns, assets[i],
                       if assets[i].name in pods && !fails(ReadPod, i) then Some(pods[assets[i].name]) else None)
  {
    forall i | 0 <= i < |assets|
      ensures Tells(Reports(ns, pods, assets, fails)[i], ns, assets[i],
                    if assets[i].name in pods && !fails(ReadPod, i) then Some(pods[assets[i].name]) else None)
    {
      StatusTells(ns, assets[i], Seen(pods, assets[i].name, fails(ReadPod, i)));
    }
  }

  // ---- Fixed point ----

  /** Everything in `m` is in `m'` unchanged. */
  ghost predicate Extends<T>(m: map<string, T>, m': map<string, T>) {
    forall n :: n in m ==> n in m' && m'[n] == m[n]
  }

  ghost predicate Within(w: World, w': World) {
    Extends(w.pods, w'.pods) && Extends(w.services, w'.services)
  }

  lemma NamesSnoc(assets: seq<Asset>, i: nat)
    requires i < |assets|
    ensures Names(assets[..i + 1]) == Names(assets[..i]) + {assets[i].name}
  {
    forall n | n in Names(assets[..i]) + {assets[i].name}
      ensures n in Names(assets[..i + 1])
    {
      if n == assets[i].name {
        assert assets[..i + 1][i].name == n;
      } else {
        var k :| 0 <= k < i && assets[..i][k].name == n;
        assert assets[..i + 1][k].name == n;
      }
    }
  }

  lemma WithPodsTwice(pods: map<string, Pod>, a: set<string>, b: set<string>)
    ensures WithPods(WithPods(pods, a), b) == WithPods(pods, a + b)
  {
  }

  lemma WithServicesTwice(services: map<string, Service>, a: set<string>, b: set<string>)
    ensures WithServices(WithServices(services, a), b) == WithServices(services, a + b)
  {
  }

  lemma WithRelaysDone(services: map<string, Service>, names: set<string>)
    ensures WithRelays(WithServices(WithRelays(services), names)) == WithServices(WithRelays(services), names)
  {
  }

  lemma SomeNames(assets: seq<Asset>, i: nat)
    requires i <= |assets|
    ensures Names(assets[..i]) <= Names(assets)
  {
    forall n | n in Names(assets[..i])
      ensures n in Names(assets)
    {
      var k :| 0 <= k < i && assets[..i][k].name == n;
      assert assets[k].name == n;
    }
  }

  /** The objects of the first `i` assets; the loop goes from one to the next. */
  function PodsUpTo(pods: map<string, Pod>, assets: seq<Asset>, i: nat): map<string, Pod>
    requires i <= |assets|
  {
    WithPods(pods, Names(assets[..i]))
  }

  function ServicesUpTo(services: map<string, Service>, assets: seq<Asset>, i: nat): map<string, Service>
    requires i <= |assets|
  {
    WithServices(services, Names(assets[..i]))
  }

  lemma UpToNext(w: World, assets: seq<Asset>, i: nat)
    requires i < |assets|
    ensures WithPods(PodsUpTo(w.pods, assets, i), {assets[i].name}) == PodsUpTo(w.pods, assets, i + 1)
    ensures WithServices(ServicesUpTo(w.services, assets, i), {assets[i].name}) == ServicesUpTo(w.services, assets, i + 1)
  {
    NamesSnoc(assets, i);
    WithPodsTwice(w.pods, Names(assets[..i]), {assets[i].name});
    WithServicesTwice(w.services, Names(assets[..i]), {assets[i].name});
  }

  lemma UpToAll(w: World, assets: seq<Asset>)
    ensures PodsUpTo(w.pods, assets, 0) == w.pods && ServicesUpTo(w.services, assets, 0) == w.services
    ensures PodsUpTo(w.pods, assets, |assets|) == WithPods(w.pods, Names(assets))
    ensures ServicesUpTo(w.services, assets, |assets|) == WithServices(w.services, Names(assets))
  {
    assert assets[..|assets|] == assets;
    assert Names(assets[..0]) == {};
  }

  lemma UpToWithin(w: World, assets: seq<Asset>, i: nat, j: nat)
    requires i <= |assets| && j <= |assets|
    ensures var w' := World(PodsUpTo(w.pods, assets, i), ServicesUpTo(w.services, assets, j));
            && Within(w, w')
            && Within(w', World(WithPods(w.pods, Names(assets)), WithServices(w.services, Names(assets))))
  {
    SomeNames(assets, i);
    SomeNames(assets, j);
  }

  lemma ReportNext(ns: string, w: World, assets: seq<Asset>, i: nat, fails: Faults)
    requires i < |assets|
    ensures var final := WithPods(w.pods, Names(assets));
            Reports(ns, final, assets[..i + 1], fails) ==
            Reports(ns, final, assets[..i], fails) +
            [StatusOf(ns, assets[i], Seen(PodsUpTo(w.pods, assets, i + 1), assets[i].name, fails(ReadPod, i)))]
  {
    assert assets[..i + 1][..i] == assets[..i];
    assert assets[..i + 1][i].name in Names(assets[..i + 1]);
    assert assets[i].name in Names(assets);
  }

  /** A second run on the world the first one left creates nothing. */
  lemma NothingMoreToCreate(w: World, assets: seq<Asset>)
    ensures Provisioned(Provisioned(w, assets), assets) == Provisioned(w, assets)
  {
    var names := Names(assets);
    WithPodsTwice(w.pods, names, names);
    WithRelaysDone(w.services, names);
    WithServicesTwice(WithRelays(w.services), names, names);
    assert names + names == names;
  }

  /** Exactly the pods of the assets, their services and the two relays' are added, and what was there
      stays as it was. */
  lemma CreatesExactly(w: World, assets: seq<Asset>)
    ensures var w' := Provisioned(w, assets);
            && w'.pods.Keys == w.pods.Keys + Names(assets)
            && w'.services.Keys == w.services.Keys + {"relay", "relay-grader"} + Names(assets)
            && Within(w, w')
            && (forall n :: n in w'.pods && n !in w.pods ==> w'.pods[n] == Pod("Pending", false, [], []))
            && forall n :: n in w'.services && n !in w.services ==>
                 w'.services[n] == if n in {"relay", "relay-grader"} then Relay else Headless(n)
  {
  }

  /** Every service is its asset's headless one, or a relay's own. */
  ghost predicate OwnServices(services: map<string, Service>) {
    forall n :: n in services ==> services[n] == if n in RELAYS then Relay else Headless(n)
  }

  /** From a namespace the operator alone has filled, every asset gets its pod, and its headless
      service unless a relay already has that name: exactly then. */
  lemma HeadlessIff(w: World, assets: seq<Asset>, i: nat)
    requires OwnServices(w.services) && i < |assets|
    ensures var w', n := Provisioned(w, assets), assets[i].name;
            && OwnServices(w'.services)
            && n in w'.pods && n in w'.services
            && (w'.services[n] == Headless(n) <==> n !in RELAYS)
  {
    assert assets[i].name in Names(assets);
  }

  // ---- When a run goes through ----

  /** Asset `i` gives no error: its pod can be looked up and, unless it is there or an earlier asset of
      that name made it, created; its service can be created. */
  ghost predicate AssetGoes(pods: map<string, Pod>, assets: seq<Asset>, i: nat, fails: Faults)
    requires i < |assets|
  {
    && !fails(GetPod, i)
    && (assets[i].name in pods || assets[i].name in Names(assets[..i]) || (!fails(LoadImage, i) && !fails(CreatePod, i)))
    && !fails(CreateService, i)
  }

  /** So do the first `n`. */
  ghost predicate AssetsGo(pods: map<string, Pod>, assets: seq<Asset>, n: nat, fails: Faults)
    requires n <= |assets|
  {
    forall i :: 0 <= i < n ==> AssetGoes(pods, assets, i, fails)
  }

  lemma GoOneMore(pods: map<string, Pod>, assets: seq<Asset>, n: nat, fails: Faults)
    requires n < |assets| && AssetsGo(pods, assets, n, fails)
    ensures AssetsGo(pods, assets, n + 1, fails) <==> AssetGoes(pods, assets, n, fails)
    ensures !AssetGoes(pods, assets, n, fails) ==> !AssetsGo(pods, assets, |assets|, fails)
  {
  }

  ghost predicate RunGoes(pods: map<string, Pod>, assets: seq<Asset>, fails: Faults) {
    && !fails(EnsureRelay, 0) && !fails(EnsureGrader, 0)
    && AssetsGo(pods, assets, |assets|, fails)
    && !fails(UpdateStatus, 0)
  }

  // ---- The operator's run ----

  class Operator {
    const ns: string
    var pods: map<string, Pod>
    var services: map<string, Service>
    var status: Option<Status>

    ghost function Value(): World
      reads this
    {
      World(pods, services)
    }

    constructor (ns: string)
      ensures Value() == World(map[], map[]) && status == None && this.ns == ns
    {
      this.ns, pods, services, status := ns, map[], map[], None;
    }

    method EnsureRelayService(name: string, call: Call, fails: Faults) returns (ok: bool)
      modifies this`services
      ensures ok <==> !fails(call, 0)
      ensures services == if ok && name !in old(services) then old(services)[name := Relay] else old(services)
    {
      ok := !fails(call, 0);
      if ok && name !in services {
        services := services[name := Relay];
      }
    }

    method EnsurePod(name: string, i: nat, fails: Faults) returns (ok: bool)
      modifies this`pods
      ensures pods == if ok then WithPods(old(pods), {name}) else old(pods)
      ensures ok <==> !fails(GetPod, i) && (name in old(pods) || (!fails(LoadImage, i) && !fails(CreatePod, i)))
    {
      if fails(GetPod, i) {
        return false;
      }
      if name in pods {
        assert pods == WithPods(pods, {name});
        return true;
      }
      if fails(LoadImage, i) || fails(CreatePod, i) {
        return false;
      }
      pods := pods[name := NEW_POD];
      ok := true;
    }

    /** No look before, always a create call: that the service exists already is no failure, so one
        that exists under the name is taken for the asset's. */
    method EnsureHeadlessService(name: string, i: nat, fails: Faults) returns (ok: bool)
      modifies this`services
      ensures services == if ok then WithServices(old(services), {name}) else old(services)
      ensures ok <==> !fails(CreateService, i)
    {
      if fails(CreateService, i) {
        return false;
      }
      if name in services {
        assert services == WithServices(services, {name});
      } else {
        services := services[name := Headless(name)];
      }
      ok := true;
    }

    method AssetReport(a: Asset, i: nat, fails: Faults) returns (r: AssetStatus)
      ensures r == StatusOf(ns, a, Seen(pods, a.name, fails(ReadPod, i)))
    {
      var phase, reason := "Pending", "";
      var pod := Pod("", false, [], []);
      if a.name in pods && !fails(ReadPod, i) {
        pod := pods[a.name];
        phase := pod.phase;
        reason := ContainerReason(pod);
        if pod.deleting {
          phase := "Terminating";
        }
      }
      var ready := IsPodReady(pod);
      r := AssetStatus(a.name, phase, reason, ready, a.protocols, a.name + "." + ns + ".svc.cluster.local");
    }

    method EnsureRelays(fails: Faults) returns (ok: bool)
      modifies this`services
      ensures Within(World(pods, old(services)), Value())
      ensures Extends(services, WithRelays(old(services)))
      ensures ok ==> services == WithRelays(old(services))
      ensures ok <==> !fails(EnsureRelay, 0) && !fails(EnsureGrader, 0)
    {
      ok := EnsureRelayService("relay", EnsureRelay, fails);
      if !ok {
        return;
      }
      ok := EnsureRelayService("relay-grader", EnsureGrader, fails);
    }

    method EnsureAsset(a: Asset, i: nat, fails: Faults) returns (ok: bool)
      modifies this`pods, this`services
      ensures pods == WithPods(old(pods), {a.name}) || (!ok && pods == old(pods))
      ensures services == WithServices(old(services), {a.name}) || (!ok && services == old(services))
      ensures ok <==> && !fails(GetPod, i)
                      && (a.name in old(pods) || (!fails(LoadImage, i) && !fails(CreatePod, i)))
                      && !fails(CreateService, i)
    {
      ok := EnsurePod(a.name, i, fails);
      if !ok {
        return;
      }
      ok := EnsureHeadlessService(a.name, i, fails);
    }

    /** One turn of the loop over the assets. */
    method EnsureNext(assets: seq<Asset>, i: nat, fails: Faults, ghost w: World) returns (ok: bool, r: AssetStatus)
      requires i < |assets|
      requires pods == PodsUpTo(w.pods, assets, i) && services == ServicesUpTo(w.services, assets, i)
      modifies this`pods, this`services
      ensures ok <==> AssetGoes(w.pods, assets, i, fails)
      ensures ok ==> pods == PodsUpTo(w.pods, assets, i + 1) && services == ServicesUpTo(w.services, assets, i + 1)
      ensures ok ==> r == StatusOf(ns, assets[i], Seen(pods, assets[i].name, fails(ReadPod, i)))
      ensures Within(w, Value())
      ensures Within(Value(), World(WithPods(w.pods, Names(assets)), WithServices(w.services, Names(assets))))
    {
      r := AssetStatus("", "", "", false, [], "");
      UpToNext(w, assets, i);
      ok := EnsureAsset(assets[i], i, fails);
      UpToWithin(w, assets, if pods == PodsUpTo(w.pods, assets, i) then i else i + 1,
                 if services == ServicesUpTo(w.services, assets, i) then i else i + 1);
      if ok {
        r := AssetReport(assets[i], i, fails);
      }
    }

    /** The loop over the assets. What it sees of an asset is what is there when it has ended. */
    method EnsureAssets(assets: seq<Asset>, fails: Faults) returns (ok: bool, reports: seq<AssetStatus>)
      modifies this`pods, this`services
      ensures Within(old(Value()), Value())
      ensures Within(Value(), World(WithPods(old(pods), Names(assets)), WithServices(old(services), Names(assets))))
      ensures ok ==> Value() == World(WithPods(old(pods), Names(assets)), WithServices(old(services), Names(assets)))
      ensures ok ==> reports == Reports(ns, pods, assets, fails)
      ensures ok <==> AssetsGo(old(pods), assets, |assets|, fails)
    {
      ghost var w := Value();
      reports := [];
      UpToAll(w, assets);
      for i := 0 to |assets|
        invariant pods == PodsUpTo(w.pods, assets, i) && services == ServicesUpTo(w.services, assets, i)
        invariant reports == Reports(ns, WithPods(w.pods, Names(assets)), assets[..i], fails)
        invariant AssetsGo(w.pods, assets, i, fails)
      {
        var r;
        GoOneMore(w.pods, assets, i, fails);
        ok, r := EnsureNext(assets, i, fails, w);
        if !ok {
          return;
        }
        ReportNext(ns, w, assets, i, fails);
        reports := reports + [r];
      }
      UpToWithin(w, assets, |assets|, |assets|);
      assert assets[..|assets|] == assets;
      ok := true;
    }

    method Summarize(reports: seq<AssetStatus>) returns (s: Status)
      ensures s == Summary(reports)
    {
      var ready := 0;
      var waiting: seq<string> := [];
      for i := 0 to |reports|
        invariant ready == ReadyCount(reports[..i])
        invariant waiting == WaitingFor(reports[..i])
      {
        assert reports[..i + 1][..i] == reports[..i];
        if reports[i].ready {
          ready := ready + 1;
        } else {
          waiting := waiting + [reports[i].name + " - " + reports[i].reason];
        }
      }
      assert reports[..|reports|] == reports;
      var phase;
      if ready == |reports| {
        phase := "Ready";
      } else if ready == 0 {
        phase := "Pending";
      } else {
        phase := "Degraded";
      }
      s := Status(reports, |reports|, ready, Dec(ready) + "/" + Dec(|reports|), phase, waiting);
    }

    /** A run without error leaves every asset its pod and service and reports what is there; a
        failing one keeps what there was, creates at most a part, and leaves the status alone. */
    method Provision(assets: seq<Asset>, fails: Faults) returns (ok: bool)
      modifies this
      ensures ok ==> Value() == Provisioned(old(Value()), assets)
      ensures status == if ok then Some(Summary(Reports(ns, pods, assets, fails))) else old(status)
      ensures Within(old(Value()), Value()) && Within(Value(), Provisioned(old(Value()), assets))
      ensures ok <==> RunGoes(old(pods), assets, fails)
    {
      ok := EnsureRelays(fails);
      if !ok {
        return;
      }
      var reports;
      ok, reports := EnsureAssets(assets, fails);
      if !ok {
        return;
      }
      if fails(UpdateStatus, 0) {
        return false;
      }
      var s := Summarize(reports);
      status := Some(s);
    }

    /** When nothing else happens in between, a second run creates nothing, whatever calls fail, and
        if the same pods can be read back its status is the same. */
    method ProvisionTwice(assets: seq<Asset>, fails: Faults, later: Faults) returns (ok: bool, first: Option<Status>)
      modifies this
      ensures ok ==> Value() == Provisioned(old(Value()), assets) && first.Some? && status.Some?
      ensures ok && SameReads(fails, later, |assets|) ==> status == first
      ensures ok <==> RunGoes(old(pods), assets, fails) && RunGoes(WithPods(old(pods), Names(assets)), assets, later)
    {
      NothingMoreToCreate(old(Value()), assets);
      ok := Provision(assets, fails);
      first := status;
      if ok {
        ghost var w := Value();
        ok := Provision(assets, later);
        if ok && SameReads(fails, later, |assets|) {
          SameReports(ns, w.pods, assets, fails, later);
        }
      }
    }
  }
}
