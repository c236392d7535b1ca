/** The upstream reconciler: LabEnvironment events patched into attempt records, with a cache of
    the last synced version and of whether the expiry was written. */
module Upstream {
  import opened Options
  import opened Lifecycle

  datatype AssetView = AssetView(name: string, state: string, status: string, protocols: seq<string>)

  /** The fields of an attempt record that the reconciler writes. */
  datatype Attempt = Attempt(
    current: AttemptState, desired: AttemptState, assets: seq<AssetView>, expiresAt: Option<int>)

  /** A patch: the fields present are written, the others stay. */
  datatype Patch = Patch(current: AttemptState, assets: seq<AssetView>, expiresAt: Option<int>)

  function AssetState(phase: string): string {
    if phase == "Running" || phase == "Succeeded" then "provisioned"
    else if phase == "Pending" then "provisioning"
    else if phase == "Terminating" then "decommissioned"
    else "pending"
  }

  function AssetPower(phase: string): string {
    if phase == "Running" then "poweredon" else "poweredoff"
  }

  function View(a: AssetStatus): AssetView {
    AssetView(a.name, AssetState(a.phase), AssetPower(a.phase), a.protocols)
  }

  function Views(assets: seq<AssetStatus>): seq<AssetView> {
    seq(|assets|, i requires 0 <= i < |assets| => View(assets[i]))
  }

  function ApplyPatch(r: Attempt, p: Patch): Attempt {
    Attempt(p.current, r.desired, p.assets, if p.expiresAt.Some? then p.expiresAt else r.expiresAt)
  }

  /** The whole status as a patch. */
  function FullPatch(e: Env): Patch {
    Patch(PhaseToState(e.phase), Views(e.assets), e.expiresAt)
  }

  /** One attempt with what the reconciler remembers about it. */
  datatype Cached = Cached(record: Attempt, lastRV: Option<nat>, written: bool)

  /** An informer event with the outcome of the patch it may cause, a user asking to decommission, or
      the same controller's downstream half marking a record whose object it did not find. */
  datatype Item = Informer(event: Event, ok: bool) | Decommission | Mark

  /** One sync of a version whose status makes the patch `full`; no patch before there is a phase. */
  function CachedSync(c: Cached, rv: nat, full: Option<Patch>, ok: bool): Cached {
    if c.lastRV == Some(rv) || full.None? then c
    else
      var p := if c.written then full.value.(expiresAt := None) else full.value;
      if !ok then c
      else Cached(ApplyPatch(c.record, p), Some(rv), c.written || p.expiresAt.Some?)
  }

  function PatchFor(e: Env): Option<Patch> {
    if e.phase == Unset then None else Some(FullPatch(e))
  }

  function CachedUpsert(c: Cached, e: Env, ok: bool): Cached {
    CachedSync(c, e.rv, PatchFor(e), ok)
  }

  function Gone(r: Attempt): Attempt {
    r.(current := Decommissioned, desired := Decommissioned)
  }

  function CachedStep(c: Cached, i: Item): Cached {
    match i
    case Decommission => c.(record := c.record.(desired := Decommissioned))
    case Mark => c.(record := c.record.(current := Decommissioned))
    case Informer(Upsert(e), ok) => CachedUpsert(c, e, ok)
    case Informer(Deleted, ok) => Cached(if ok then Gone(c.record) else c.record, None, false)
  }

  /** The same without any cache: every event with a phase patches the whole status. */
  function PlainStep(r: Attempt, i: Item): Attempt {
    match i
    case Decommission => r.(desired := Decommissioned)
    case Mark => r.(current := Decommissioned)
    case Informer(Upsert(e), ok) => if e.phase != Unset && ok then ApplyPatch(r, FullPatch(e)) else r
    case Informer(Deleted, ok) => if ok then Gone(r) else r
  }

  function CachedRun(r: Attempt, items: seq<Item>): Cached {
    if items == [] then Cached(r, None, false)
    else CachedStep(CachedRun(r, items[..|items| - 1]), items[|items| - 1])
  }

  function PlainRun(r: Attempt, items: seq<Item>): Attempt {
    if items == [] then r else PlainStep(PlainRun(r, items[..|items| - 1]), items[|items| - 1])
  }

  // ---- Event streams the cache relies on ----

  /** Versions of the object sent since the last Delete event. */
  function Since(es: seq<Event>): set<Env> {
    if es == [] then {}
    else match es[|es| - 1]
      case Upsert(e) => Since(es[..|es| - 1]) + {e}
      case Deleted => {}
  }

  /** `later` is the same version as `d`, or a later one that keeps its expiry. */
  predicate Follows(d: Env, later: Env) {
    (d.rv == later.rv ==> d == later) && (d.expiresAt.Some? ==> later.expiresAt == d.expiresAt)
  }

  ghost predicate FollowsAll(ds: set<Env>, later: Env) {
    forall d :: d in ds ==> Follows(d, later)
  }

  ghost predicate Consistent(es: seq<Event>) {
    es != [] ==>
      && Consistent(es[..|es| - 1])
      && (es[|es| - 1].Upsert? ==> FollowsAll(Since(es[..|es| - 1]), es[|es| - 1].env))
  }

  function EventsOf(items: seq<Item>): seq<Event> {
    if items == [] then []
    else
      EventsOf(items[..|items| - 1]) +
      match items[|items| - 1] case Informer(e, _) => [e] case _ => []
  }

  // ---- When the caches are exact ----

  /** The cached reconciler writes the record. */
  predicate Patches(c: Cached, i: Item) {
    match i
    case Informer(Upsert(e), ok) => ok && e.phase != Unset && c.lastRV != Some(e.rv)
    case Informer(Deleted, ok) => ok
    case _ => false
  }

  /** It skips the version it synced last, where a patch would have shown the attempt alive. */
  predicate SkipsLive(c: Cached, i: Item) {
    && i.Informer? && i.ok && i.event.Upsert?
    && c.lastRV == Some(i.event.env.rv)
    && i.event.env.phase != Unset
    && PhaseToState(i.event.env.phase) != Decommissioned
  }

  /** What the record went through since the last patch: nothing, a mark, or a mark and then a
      skipped live version. */
  datatype Mode = Patched | Marked | Passed

  function ModeStep(m: Mode, c: Cached, i: Item): Mode {
    if Patches(c, i) then Patched
    else if i.Mark? then Marked
    else if SkipsLive(c, i) && m != Patched then Passed
    else m
  }

  function ModeOf(r: Attempt, items: seq<Item>): Mode {
    if items == [] then Patched
    else
      var init := items[..|items| - 1];
      ModeStep(ModeOf(r, init), CachedRun(r, init), items[|items| - 1])
  }

  /** Some mark was followed by a skipped live version, with no patch since that mark and no mark
      since that version. */
  ghost predicate MarkThenSkip(r: Attempt, items: seq<Item>) {
    exists i, j :: 0 <= i < j < |items| && items[i].Mark? && SkipsAt(r, items, j) && Unpatched(r, items, i) && Unmarked(items, j)
  }

  predicate SkipsAt(r: Attempt, items: seq<Item>, j: nat)
    requires j < |items|
  {
    SkipsLive(CachedRun(r, items[..j]), items[j])
  }

  /** Nothing after position `i` patches the record. */
  ghost predicate Unpatched(r: Attempt, items: seq<Item>, i: nat) {
    forall k :: i < k < |items| ==> !Patches(CachedRun(r, items[..k]), items[k])
  }

  ghost predicate Unmarked(items: seq<Item>, j: nat) {
    forall k :: j < k < |items| ==> !items[k].Mark?
  }

  ghost predicate MarkOnly(r: Attempt, items: seq<Item>) {
    exists i :: 0 <= i < |items| && items[i].Mark? && Unpatched(r, items, i)
  }

  lemma UnpatchedSnoc(r: Attempt, items: seq<Item>, x: Item, i: nat)
    requires i < |items|
    ensures Unpatched(r, items + [x], i) <==> Unpatched(r, items, i) && !Patches(CachedRun(r, items), x)
  {
    var longer := items + [x];
    assert longer[..|items|] == items;
    assert forall k :: 0 <= k < |items| ==> longer[..k] == items[..k];
    if Unpatched(r, longer, i) {
      assert !Patches(CachedRun(r, longer[..|items|]), longer[|items|]);
    }
  }

  lemma ModeSnoc(r: Attempt, items: seq<Item>, x: Item)
    ensures ModeOf(r, items + [x]) == ModeStep(ModeOf(r, items), CachedRun(r, items), x)
    ensures CachedRun(r, items + [x]) == CachedStep(CachedRun(r, items), x)
    ensures PlainRun(r, items + [x]) == PlainStep(PlainRun(r, items), x)
  {
    assert (items + [x])[..|items|] == items;
  }

  lemma MarkKept(r: Attempt, items: seq<Item>, x: Item)
    requires MarkOnly(r, items) && !Patches(CachedRun(r, items), x)
    ensures MarkOnly(r, items + [x])
  {
    var i :| 0 <= i < |items| && items[i].Mark? && Unpatched(r, items, i);
    UnpatchedSnoc(r, items, x, i);
    assert (items + [x])[i].Mark?;
  }

  lemma MarkFound(r: Attempt, items: seq<Item>, x: Item)
    requires MarkOnly(r, items + [x]) && !x.Mark?
    ensures MarkOnly(r, items) && !Patches(CachedRun(r, items), x)
  {
    var longer := items + [x];
    var i :| 0 <= i < |longer| && longer[i].Mark? && Unpatched(r, longer, i);
    UnpatchedSnoc(r, items, x, i);
    assert items[i].Mark?;
  }

  lemma MarkOnlySnoc(r: Attempt, items: seq<Item>, x: Item)
    ensures MarkOnly(r, items + [x]) <==> x.Mark? || (MarkOnly(r, items) && !Patches(CachedRun(r, items), x))
  {
    if x.Mark? {
      assert (items + [x])[|items|].Mark? && Unpatched(r, items + [x], |items|);
    } else if MarkOnly(r, items + [x]) {
      MarkFound(r, items, x);
    } else if MarkOnly(r, items) && !Patches(CachedRun(r, items), x) {
      MarkKept(r, items, x);
    }
  }

  lemma SkipAppended(r: Attempt, items: seq<Item>, x: Item)
    requires MarkOnly(r, items) && SkipsLive(CachedRun(r, items), x)
    ensures MarkThenSkip(r, items + [x])
  {
    var longer, n := items + [x], |items|;
    assert longer[..n] == items;
    var i :| 0 <= i < n && items[i].Mark? && Unpatched(r, items, i);
    UnpatchedSnoc(r, items, x, i);
    assert longer[i].Mark? && SkipsAt(r, longer, n) && Unmarked(longer, n);
  }

  lemma SkipKept(r: Attempt, items: seq<Item>, x: Item)
    requires MarkThenSkip(r, items) && !x.Mark? && !Patches(CachedRun(r, items), x)
    ensures MarkThenSkip(r, items + [x])
  {
    var longer := items + [x];
    var i, j :| 0 <= i < j < |items| && items[i].Mark? && SkipsAt(r, items, j) && Unpatched(r, items, i) && Unmarked(items, j);
    UnpatchedSnoc(r, items, x, i);
    assert longer[..j] == items[..j];
    assert longer[i].Mark? && SkipsAt(r, longer, j) && Unmarked(longer, j);
  }

  lemma SkipFound(r: Attempt, items: seq<Item>, x: Item)
    requires MarkThenSkip(r, items + [x])
    ensures || (MarkOnly(r, items) && SkipsLive(CachedRun(r, items), x))
            || (MarkThenSkip(r, items) && !x.Mark? && !Patches(CachedRun(r, items), x))
  {
    var longer, n := items + [x], |items|;
    assert longer[..n] == items;
    var i, j :| 0 <= i < j < |longer| && longer[i].Mark? && SkipsAt(r, longer, j) && Unpatched(r, longer, i) && Unmarked(longer, j);
    UnpatchedSnoc(r, items, x, i);
    assert items[i].Mark?;
    if j < n {
      assert longer[..j] == items[..j];
      assert !longer[n].Mark?;
      assert SkipsAt(r, items, j) && Unmarked(items, j);
    }
  }

  lemma MarkThenSkipSnoc(r: Attempt, items: seq<Item>, x: Item)
    ensures MarkThenSkip(r, items + [x]) <==>
            || (MarkOnly(r, items) && SkipsLive(CachedRun(r, items), x))
            || (MarkThenSkip(r, items) && !x.Mark? && !Patches(CachedRun(r, items), x))
  {
    if MarkThenSkip(r, items + [x]) {
      SkipFound(r, items, x);
    } else {
      if MarkOnly(r, items) && SkipsLive(CachedRun(r, items), x) {
        SkipAppended(r, items, x);
      }
      if MarkThenSkip(r, items) && !x.Mark? && !Patches(CachedRun(r, items), x) {
        SkipKept(r, items, x);
      }
    }
  }

  lemma {:induction false} ModeMeans(r: Attempt, items: seq<Item>)
    ensures ModeOf(r, items) == Passed <==> MarkThenSkip(r, items)
    ensures ModeOf(r, items) != Patched <==> MarkOnly(r, items)
  {
    if items != [] {
      var init, x := items[..|items| - 1], items[|items| - 1];
      assert items == init + [x];
      ModeMeans(r, init);
      MarkOnlySnoc(r, init, x);
      MarkThenSkipSnoc(r, init, x);
    }
  }

  /** The version synced last, if it is remembered. */
  ghost predicate ShowsLast(c: Cached, m: Mode, d: Env) {
    && c.lastRV == Some(d.rv)
    && d.phase != Unset
    && c.record.assets == Views(d.assets)
    && (d.expiresAt.Some? ==> c.record.expiresAt == d.expiresAt)
    && (m == Patched ==> c.record.current == PhaseToState(d.phase))
    && (m == Passed ==> PhaseToState(d.phase) != Decommissioned)
  }

  ghost predicate CacheRight(c: Cached, m: Mode, es: seq<Event>) {
    && (c.lastRV.Some? ==> exists d :: d in Since(es) && ShowsLast(c, m, d))
    && (c.written ==> exists d :: d in Since(es) && d.expiresAt.Some? && d.expiresAt == c.record.expiresAt)
  }

  /** The cached record against the cache-free one. */
  predicate Agree(a: Attempt, p: Attempt, m: Mode) {
    && a.desired == p.desired && a.assets == p.assets && a.expiresAt == p.expiresAt
    && (m != Patched ==> a.current == Decommissioned)
    && (if m == Passed then p.current != Decommissioned else p.current == a.current)
  }

  lemma UpsertAgrees(c: Cached, p: Attempt, m: Mode, es: seq<Event>, e: Env, ok: bool)
    requires CacheRight(c, m, es) && Agree(c.record, p, m) && FollowsAll(Since(es), e)
    ensures var i := Informer(Upsert(e), ok);
            Agree(CachedUpsert(c, e, ok).record, PlainStep(p, i), ModeStep(m, c, i))
  {
    if c.lastRV == Some(e.rv) {
      var d :| d in Since(es) && ShowsLast(c, m, d);
      assert Follows(d, e);
    } else if c.written {
      var d :| d in Since(es) && d.expiresAt.Some? && d.expiresAt == c.record.expiresAt;
      assert Follows(d, e);
    }
  }

  lemma UpsertKeepsCache(c: Cached, m: Mode, es: seq<Event>, e: Env, ok: bool)
    requires CacheRight(c, m, es) && FollowsAll(Since(es), e)
    ensures CacheRight(CachedUpsert(c, e, ok), ModeStep(m, c, Informer(Upsert(e), ok)), es + [Upsert(e)])
  {
    var c' := CachedUpsert(c, e, ok);
    var m' := ModeStep(m, c, Informer(Upsert(e), ok));
    HistorySnoc(es, Upsert(e));
    if c.written {
      var d :| d in Since(es) && d.expiresAt.Some? && d.expiresAt == c.record.expiresAt;
      assert d in Since(es + [Upsert(e)]);
    }
    if c' != c {
      if c.written {
        var d :| d in Since(es) && d.expiresAt.Some? && d.expiresAt == c.record.expiresAt;
        assert Follows(d, e);
      }
      assert e in Since(es + [Upsert(e)]) && ShowsLast(c', m', e);
    } else if c.lastRV.Some? {
      var d :| d in Since(es) && ShowsLast(c, m, d);
      assert Follows(d, e);
      assert d in Since(es + [Upsert(e)]) && ShowsLast(c', m', d);
    }
  }

  lemma OtherItemKeeps(c: Cached, p: Attempt, m: Mode, es: seq<Event>, i: Item)
    requires CacheRight(c, m, es) && Agree(c.record, p, m) && !i.Informer?
    ensures Agree(CachedStep(c, i).record, PlainStep(p, i), ModeStep(m, c, i))
    ensures CacheRight(CachedStep(c, i), ModeStep(m, c, i), es)
  {
    if c.lastRV.Some? {
      var d :| d in Since(es) && ShowsLast(c, m, d);
      assert ShowsLast(CachedStep(c, i), ModeStep(m, c, i), d);
    }
  }

  /** One more item on a consistent stream. */
  lemma ItemAgrees(c: Cached, p: Attempt, m: Mode, es: seq<Event>, i: Item)
    requires CacheRight(c, m, es) && Agree(c.record, p, m)
    requires i.Informer? ==> Consistent(es + [i.event])
    ensures Agree(CachedStep(c, i).record, PlainStep(p, i), ModeStep(m, c, i))
    ensures CacheRight(CachedStep(c, i), ModeStep(m, c, i), if i.Informer? then es + [i.event] else es)
  {
    match i
    case Informer(Upsert(e), ok) =>
      HistorySnoc(es, Upsert(e));
      UpsertAgrees(c, p, m, es, e, ok);
      UpsertKeepsCache(c, m, es, e, ok);
    case Informer(Deleted, ok) =>
    case _ => OtherItemKeeps(c, p, m, es, i);
  }

  lemma EventsSnoc(items: seq<Item>, i: Item)
    ensures EventsOf(items + [i]) == EventsOf(items) + if i.Informer? then [i.event] else []
  {
    assert (items + [i])[..|items|] == items;
  }

  lemma {:induction false} RunsAgree(r: Attempt, items: seq<Item>)
    requires Consistent(EventsOf(items))
    ensures var c, m := CachedRun(r, items), ModeOf(r, items);
            Agree(c.record, PlainRun(r, items), m) && CacheRight(c, m, EventsOf(items))
  {
    if items != [] {
      var init, i := items[..|items| - 1], items[|items| - 1];
      assert items == init + [i];
      EventsSnoc(init, i);
      if i.Informer? {
        HistorySnoc(EventsOf(init), i.event);
      } else {
        assert EventsOf(init) + [] == EventsOf(init);
      }
      RunsAgree(r, init);
      ModeSnoc(r, init, i);
      ItemAgrees(CachedRun(r, init), PlainRun(r, init), ModeOf(r, init), EventsOf(init), i);
    }
  }

  /** Whatever patches fail, the cached reconciler leaves the record a cache-free one would, but for
      one case: the record stays decommissioned, where the cache-free one shows the attempt alive,
      exactly when a mark was followed by a skipped version. */
  lemma CacheIsExactIff(r: Attempt, items: seq<Item>)
    requires Consistent(EventsOf(items))
    ensures var a, p := CachedRun(r, items).record, PlainRun(r, items);
            && a.desired == p.desired && a.assets == p.assets && a.expiresAt == p.expiresAt
            && (a.current != p.current <==> MarkThenSkip(r, items))
            && (a.current != p.current ==> a.current == Decommissioned)
  {
    RunsAgree(r, items);
    ModeMeans(r, items);
  }

  lemma HistorySnoc(es: seq<Event>, e: Event)
    ensures Since(es + [e]) == (match e case Upsert(x) => Since(es) + {x} case Deleted => {})
    ensures Consistent(es + [e]) <==>
            Consistent(es) && (e.Upsert? ==> FollowsAll(Since(es), e.env))
  {
    assert (es + [e])[..|es|] == es;
  }

  // ---- What the record shows ----

  /** What people see of an asset in this phase. */
  ghost predicate Shows(v: AssetView, name: string, phase: string, protocols: seq<string>) {
    && v.name == name && v.protocols == protocols
    && (v.status == if phase == "Running" then "poweredon" else "poweredoff")
    && (phase in {"Running", "Succeeded"} ==> v.state == "provisioned")
    && (phase == "Pending" ==> v.state == "provisioning")
    && (phase == "Terminating" ==> v.state == "decommissioned")
    && (phase !in {"Running", "Succeeded", "Pending", "Terminating"} ==> v.state == "pending")
  }

  ghost predicate ShowsAll(vs: seq<AssetView>, assets: seq<AssetStatus>) {
    |vs| == |assets| && forall i :: 0 <= i < |assets| ==> Shows(vs[i], assets[i].name, assets[i].phase, assets[i].protocols)
  }

  /** What people see of the whole environment; a terminating one already counts as gone. */
  ghost predicate StateShows(current: AttemptState, phase: Phase) {
    && (phase == Ready ==> current == Provisioned)
    && (phase in {Pending, Degraded} ==> current == AttemptState.Provisioning)
    && (phase == Terminating ==> current == Decommissioned)
  }

  /** An event whose patch went through, with the version it reported. */
  predicate Reported(i: Item) {
    i.Informer? && i.ok && i.event.Upsert? && i.event.env.phase != Unset
  }

  predicate Deletion(i: Item) {
    i.Informer? && i.ok && i.event.Deleted?
  }

  ghost predicate NoneAfter(items: seq<Item>, k: nat, p: Item -> bool) {
    forall j :: k < j < |items| ==> !p(items[j])
  }

  lemma NoneAfterInit(items: seq<Item>, k: nat, p: Item -> bool)
    requires k < |items| - 1 && NoneAfter(items, k, p)
    ensures NoneAfter(items[..|items| - 1], k, p) && !p(items[|items| - 1])
  {
  }

  /** Without a cache, the record shows the assets of the last version whose patch went through, and its
      state unless the record was marked or the deletion came later. */
  lemma {:induction false} LastReportShown(r: Attempt, items: seq<Item>, k: nat)
    requires k < |items| && Reported(items[k]) && NoneAfter(items, k, Reported)
    ensures var a, e := PlainRun(r, items), items[k].event.env;
            && ShowsAll(a.assets, e.assets)
            && (e.expiresAt.Some? ==> a.expiresAt == e.expiresAt)
            && (NoneAfter(items, k, (i: Item) => i.Mark?) && NoneAfter(items, k, Deletion) ==> StateShows(a.current, e.phase))
  {
    if k < |items| - 1 {
      NoneAfterInit(items, k, Reported);
      LastReportShown(r, items[..|items| - 1], k);
    }
  }

  /** A deletion whose patch went through ends the attempt for good: nobody asks for it again. */
  lemma {:induction false} DeletionShown(r: Attempt, items: seq<Item>, k: nat)
    requires k < |items| && Deletion(items[k])
    ensures PlainRun(r, items).desired == Decommissioned
    ensures NoneAfter(items, k, Reported) ==> PlainRun(r, items).current == Decommissioned
  {
    if k < |items| - 1 {
      DeletionShown(r, items[..|items| - 1], k);
    }
  }

  /** The record is asked to go only by people or by a deletion. */
  lemma {:induction false} DesiredShown(r: Attempt, items: seq<Item>)
    ensures PlainRun(r, items).desired ==
            if exists k :: 0 <= k < |items| && (items[k].Decommission? || Deletion(items[k])) then Decommissioned else r.desired
  {
    if items != [] {
      var n := |items| - 1;
      DesiredShown(r, items[..n]);
      assert forall k :: 0 <= k < n ==> items[..n][k] == items[k];
    }
  }

  lemma WrittenStays(c: Cached, i: Item)
    requires c.written && (i.Informer? ==> i.event.Upsert?)
    ensures CachedStep(c, i).written && CachedStep(c, i).record.expiresAt == c.record.expiresAt
  {
  }

  /** Once the reconciler has written an expiry it writes none again before the object is deleted, whatever
      versions come. */
  lemma {:induction false} ExpiryWrittenOnce(r: Attempt, items: seq<Item>, k: nat)
    requires k <= |items| && CachedRun(r, items[..k]).written
    requires forall j :: k <= j < |items| && items[j].Informer? ==> items[j].event.Upsert?
    ensures CachedRun(r, items).written && CachedRun(r, items).record.expiresAt == CachedRun(r, items[..k]).record.expiresAt
  {
    if k == |items| {
      assert items[..k] == items;
    } else {
      var n := |items| - 1;
      assert items[..n][..k] == items[..k];
      ExpiryWrittenOnce(r, items[..n], k);
      WrittenStays(CachedRun(r, items[..n]), items[n]);
    }
  }
}
