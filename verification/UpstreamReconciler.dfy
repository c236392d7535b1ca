/** The upstream reconciler as it runs: untyped statuses in, fields updated in place. */
module UpstreamReconciler {
  import opened Options
  import opened Lifecycle
  import opened Upstream

  // ---- Statuses as they arrive ----

  /** An untyped value of an object's status. */
  datatype Raw = Text(text: string) | List(items: seq<Raw>) | Fields(fields: map<string, Raw>) | Other

  /** The text under a key, empty if there is none. */
  function TextAt(v: Raw, key: string): string {
    if v.Fields? && key in v.fields && v.fields[key].Text? then v.fields[key].text else ""
  }

  function ListAt(v: Raw, key: string): seq<Raw> {
    if v.Fields? && key in v.fields && v.fields[key].List? then v.fields[key].items else []
  }

  /** The texts in a list; anything else in it is passed over. */
  function Texts(vs: seq<Raw>): seq<string> {
    if vs == [] then []
    else
      var last := vs[|vs| - 1];
      Texts(vs[..|vs| - 1]) + if last.Text? then [last.text] else []
  }

  function RawView(v: Raw): AssetView {
    AssetView(TextAt(v, "name"), AssetState(TextAt(v, "phase")), AssetPower(TextAt(v, "phase")),
              Texts(ListAt(v, "protocols")))
  }

  /** One view for each entry that has fields; anything else is passed over. */
  function RawViews(vs: seq<Raw>): seq<AssetView> {
    if vs == [] then []
    else
      var last := vs[|vs| - 1];
      RawViews(vs[..|vs| - 1]) + if last.Fields? then [RawView(last)] else []
  }

  function StateFor(phase: string): AttemptState {
    if phase == "Ready" then Provisioned else if phase == "Terminating" then Decommissioned else Provisioning
  }

  function PatchOf(phase: string, assets: seq<AssetView>, expiry: string, parse: string -> Option<int>): Option<Patch> {
    if phase == "" then None
    else Some(Patch(StateFor(phase), assets, if expiry == "" then None else parse(expiry)))
  }

  /** The patch a status makes. An expiry that is absent or no date is left out. */
  function RawPatch(status: Raw, parse: string -> Option<int>): Option<Patch> {
    PatchOf(TextAt(status, "phase"), RawViews(ListAt(status, "assets")), TextAt(status, "expiresAt"), parse)
  }

  function RawTexts(ts: seq<string>): (r: seq<Raw>)
    ensures |r| == |ts| && forall i :: 0 <= i < |ts| ==> r[i] == Text(ts[i])
  {
    seq(|ts|, i requires 0 <= i < |ts| => Text(ts[i]))
  }

  function RawAsset(a: AssetStatus): Raw {
    Fields(map["name" := Text(a.name), "phase" := Text(a.phase), "protocols" := List(RawTexts(a.protocols))])
  }

  function RawAssets(assets: seq<AssetStatus>): (r: seq<Raw>)
    ensures |r| == |assets| && forall i :: 0 <= i < |assets| ==> r[i] == RawAsset(assets[i])
  {
    seq(|assets|, i requires 0 <= i < |assets| => RawAsset(assets[i]))
  }

  /** The operator's status as the informer delivers it. */
  function RawStatus(e: Env, show: int -> string): Raw {
    Fields(map["phase" := Text(PhaseText(e.phase)), "assets" := List(RawAssets(e.assets)),
               "expiresAt" := Text(if e.expiresAt.Some? then show(e.expiresAt.value) else "")])
  }

  lemma {:induction false} TextsOfRaw(ts: seq<string>)
    ensures Texts(RawTexts(ts)) == ts
  {
    if ts != [] {
      var init := ts[..|ts| - 1];
      TextsOfRaw(init);
      assert RawTexts(ts)[..|ts| - 1] == RawTexts(init);
    }
  }

  lemma AssetParts(a: AssetStatus)
    ensures var v := RawAsset(a);
            TextAt(v, "name") == a.name && TextAt(v, "phase") == a.phase && ListAt(v, "protocols") == RawTexts(a.protocols)
  {
  }

  lemma ViewOfRaw(a: AssetStatus)
    ensures RawView(RawAsset(a)) == View(a)
  {
    AssetParts(a);
    TextsOfRaw(a.protocols);
  }

  lemma RawViewsSnoc(vs: seq<Raw>, v: Raw)
    requires v.Fields?
    ensures RawViews(vs + [v]) == RawViews(vs) + [RawView(v)]
  {
    assert (vs + [v])[..|vs|] == vs;
  }

  lemma RawAssetsSnoc(assets: seq<AssetStatus>, a: AssetStatus)
    ensures RawAssets(assets + [a]) == RawAssets(assets) + [RawAsset(a)]
    ensures Views(assets + [a]) == Views(assets) + [View(a)]
  {
  }

  lemma ViewsStep(assets: seq<AssetStatus>, a: AssetStatus)
    requires RawViews(RawAssets(assets)) == Views(assets)
    ensures RawViews(RawAssets(assets + [a])) == Views(assets + [a])
  {
    RawAssetsSnoc(assets, a);
    ViewOfRaw(a);
    RawViewsSnoc(RawAssets(assets), RawAsset(a));
  }

  lemma {:induction false} ViewsOfRaw(assets: seq<AssetStatus>)
    ensures RawViews(RawAssets(assets)) == Views(assets)
  {
    if assets != [] {
      var init, last := assets[..|assets| - 1], assets[|assets| - 1];
      ViewsOfRaw(init);
      ViewsStep(init, last);
      assert init + [last] == assets;
    }
  }

  lemma StateForPhase(p: Phase)
    ensures PhaseText(p) == "" <==> p == Unset
    ensures p != Unset ==> StateFor(PhaseText(p)) == PhaseToState(p)
  {
  }

  lemma StatusParts(e: Env, show: int -> string)
    ensures var status := RawStatus(e, show);
            && TextAt(status, "phase") == PhaseText(e.phase)
            && ListAt(status, "assets") == RawAssets(e.assets)
            && TextAt(status, "expiresAt") == if e.expiresAt.Some? then show(e.expiresAt.value) else ""
  {
  }

  lemma PatchOfParts(phase: Phase, assets: seq<AssetView>, expiresAt: Option<int>, expiry: string, parse: string -> Option<int>)
    requires if expiresAt.None? then expiry == "" else expiry != "" && parse(expiry) == expiresAt
    ensures PatchOf(PhaseText(phase), assets, expiry, parse) ==
            if phase == Unset then None else Some(Patch(PhaseToState(phase), assets, expiresAt))
  {
    StateForPhase(phase);
  }

  /** What the operator writes is read as what it meant. */
  lemma PatchOfRaw(e: Env, parse: string -> Option<int>, show: int -> string)
    requires e.expiresAt.Some? ==>
               var shown := show(e.expiresAt.value);
               shown != "" && parse(shown) == e.expiresAt
    ensures RawPatch(RawStatus(e, show), parse) == PatchFor(e)
  {
    StatusParts(e, show);
    ViewsOfRaw(e.assets);
    PatchOfParts(e.phase, Views(e.assets), e.expiresAt, if e.expiresAt.Some? then show(e.expiresAt.value) else "", parse);
  }

  // ---- Statuses of any form ----

  predicate Kept(v: Raw, texts: bool) {
    if texts then v.Text? else v.Fields?
  }

  /** `at` are, in order, the places of the entries that are texts, or that have fields. */
  ghost predicate Places(vs: seq<Raw>, at: seq<nat>, texts: bool) {
    && (forall i :: 0 <= i < |at| ==> at[i] < |vs| && Kept(vs[at[i]], texts))
    && (forall i, j :: 0 <= i < j < |at| ==> at[i] < at[j])
    && forall k :: 0 <= k < |vs| && Kept(vs[k], texts) ==> k in at
  }

  lemma PlaceAdded(vs: seq<Raw>, v: Raw, at: seq<nat>, texts: bool)
    requires Places(vs, at, texts) && Kept(v, texts)
    ensures Places(vs + [v], at + [|vs|], texts)
  {
    var all, more := vs + [v], at + [|vs|];
    assert more[|at|] == |vs| && all[|vs|] == v;
    forall k | 0 <= k < |all| && Kept(all[k], texts)
      ensures k in more
    {
      if k < |vs| {
        assert all[k] == vs[k];
      }
    }
  }

  lemma PlacePassed(vs: seq<Raw>, v: Raw, at: seq<nat>, texts: bool)
    requires Places(vs, at, texts) && !Kept(v, texts)
    ensures Places(vs + [v], at, texts)
  {
    var all := vs + [v];
    forall k | 0 <= k < |all| && Kept(all[k], texts)
      ensures k in at
    {
      assert k < |vs| && all[k] == vs[k];
    }
  }

  lemma PlacesMore(vs: seq<Raw>, v: Raw, at: seq<nat>, texts: bool)
    requires Places(vs, at, texts)
    ensures Places(vs + [v], if Kept(v, texts) then at + [|vs|] else at, texts)
  {
    if Kept(v, texts) {
      PlaceAdded(vs, v, at, texts);
    } else {
      PlacePassed(vs, v, at, texts);
    }
  }

  ghost predicate AreTexts(vs: seq<Raw>, at: seq<nat>, ts: seq<string>) {
    |at| == |ts| && forall i :: 0 <= i < |at| ==> at[i] < |vs| && vs[at[i]] == Text(ts[i])
  }

  lemma AreTextsMore(vs: seq<Raw>, v: Raw, at: seq<nat>, ts: seq<string>)
    requires AreTexts(vs, at, ts)
    ensures AreTexts(vs + [v], at, ts)
    ensures v.Text? ==> AreTexts(vs + [v], at + [|vs|], ts + [v.text])
  {
  }

  /** Of the entries of a list, exactly the texts are taken, in order. */
  lemma {:induction false} TextsAt(vs: seq<Raw>) returns (at: seq<nat>)
    ensures Places(vs, at, true) && AreTexts(vs, at, Texts(vs))
  {
    if vs == [] {
      at := [];
    } else {
      var init, last := vs[..|vs| - 1], vs[|vs| - 1];
      assert init + [last] == vs;
      at := TextsAt(init);
      PlacesMore(init, last, at, true);
      AreTextsMore(init, last, at, Texts(init));
      if last.Text? {
        at := at + [|init|];
      } else {
        assert Texts(init) + [] == Texts(init);
      }
    }
  }

  /** A view shows an entry that has fields. */
  ghost predicate ShowsRaw(view: AssetView, v: Raw) {
    Shows(view, TextAt(v, "name"), TextAt(v, "phase"), Texts(ListAt(v, "protocols")))
  }

  ghost predicate AreViews(vs: seq<Raw>, at: seq<nat>, views: seq<AssetView>) {
    |at| == |views| && forall i :: 0 <= i < |at| ==> at[i] < |vs| && ShowsRaw(views[i], vs[at[i]])
  }

  lemma AreViewsMore(vs: seq<Raw>, v: Raw, at: seq<nat>, views: seq<AssetView>, view: AssetView)
    requires AreViews(vs, at, views)
    ensures AreViews(vs + [v], at, views)
    ensures ShowsRaw(view, v) ==> AreViews(vs + [v], at + [|vs|], views + [view])
  {
  }

  /** Of the entries of the assets, exactly those with fields are shown, in order. */
  lemma {:induction false} RawViewsAt(vs: seq<Raw>) returns (at: seq<nat>)
    ensures Places(vs, at, false) && AreViews(vs, at, RawViews(vs))
  {
    if vs == [] {
      at := [];
    } else {
      var init, last := vs[..|vs| - 1], vs[|vs| - 1];
      assert init + [last] == vs;
      at := RawViewsAt(init);
      PlacesMore(init, last, at, false);
      AreViewsMore(init, last, at, RawViews(init), RawView(last));
      if last.Fields? {
        assert ShowsRaw(RawView(last), last);
        at := at + [|init|];
      } else {
        assert RawViews(init) + [] == RawViews(init);
      }
    }
  }

  /** Whatever a status holds, it makes a patch exactly if it names a phase; the patch shows the phase, each
      entry of the assets that has fields, and the expiry if it is a date. */
  lemma RawPatchShown(status: Raw, parse: string -> Option<int>) returns (at: seq<nat>)
    ensures var phase, assets, expiry := TextAt(status, "phase"), ListAt(status, "assets"), TextAt(status, "expiresAt");
            && (RawPatch(status, parse).None? <==> phase == "")
            && Places(assets, at, false)
            && (phase != "" ==>
                  var p := RawPatch(status, parse).value;
                  && (p.current == Provisioned <==> phase == "Ready")
                  && (p.current == Decommissioned <==> phase == "Terminating")
                  && p.current in {Provisioned, Decommissioned, AttemptState.Provisioning}
                  && (if expiry == "" then p.expiresAt == None else p.expiresAt == parse(expiry))
                  && AreViews(assets, at, p.assets))
  {
    at := RawViewsAt(ListAt(status, "assets"));
  }

  // ---- The reconciler, updated in place ----

  class Reconciler {
    var records: map<string, Attempt>
    var lastRV: map<string, nat>
    var expiresAtWritten: map<string, bool>

    constructor (records: map<string, Attempt>)
      ensures this.records == records && lastRV == map[] && expiresAtWritten == map[]
    {
      this.records, lastRV, expiresAtWritten := records, map[], map[];
    }

    function CachedOf(id: string): Cached
      requires id in records
      reads this
    {
      Cached(records[id],
             if id in lastRV then Some(lastRV[id]) else None,
             id in expiresAtWritten && expiresAtWritten[id])
    }

    /** Attempts other than `id` are as they were. */
    twostate predicate OnlyTouches(id: string)
      reads this
    {
      && records.Keys == old(records).Keys
      && forall x :: x in records && x != id ==> CachedOf(x) == old(CachedOf(x))
    }

    /** The fields to write, the expiry only if it was not written before. */
    static method BuildPatch(status: Raw, parse: string -> Option<int>, written: bool) returns (patch: Option<Patch>)
      ensures patch == match RawPatch(status, parse)
                       case None => None
                       case Some(p) => Some(if written then p.(expiresAt := None) else p)
    {
      var phase := TextAt(status, "phase");
      if phase == "" {
        return None;
      }
      var assets := BuildAssets(status);
      var expiresAt: Option<int> := None;
      if !written {
        var expiry := TextAt(status, "expiresAt");
        if expiry != "" {
          expiresAt := parse(expiry);
        }
      }
      patch := Some(Patch(StateFor(phase), assets, expiresAt));
    }

    /** What is left once the patch went through. */
    method Remember(id: string, rv: nat, patch: Patch)
      requires id in records
      modifies this
      ensures OnlyTouches(id)
      ensures var c := old(CachedOf(id));
              CachedOf(id) == Cached(ApplyPatch(c.record, patch), Some(rv), c.written || patch.expiresAt.Some?)
    {
      records := records[id := ApplyPatch(records[id], patch)];
      lastRV := lastRV[id := rv];
      if patch.expiresAt.Some? {
        expiresAtWritten := expiresAtWritten[id := true];
      }
    }

    method ReconcileLabEnv(id: string, rv: nat, status: Raw, parse: string -> Option<int>, ok: bool)
      requires id in records
      modifies this
      ensures OnlyTouches(id)
      ensures CachedOf(id) == CachedSync(old(CachedOf(id)), rv, RawPatch(status, parse), ok)
    {
      if id in lastRV && lastRV[id] == rv {
        return;
      }
      var patch := BuildPatch(status, parse, id in expiresAtWritten && expiresAtWritten[id]);
      if patch.None? || !ok {
        return;
      }
      Remember(id, rv, patch.value);
    }

    method ReconcileDelete(id: string, ok: bool)
      requires id in records
      modifies this
      ensures OnlyTouches(id)
      ensures CachedOf(id) == CachedStep(old(CachedOf(id)), Informer(Deleted, ok))
    {
      lastRV := lastRV - {id};
      expiresAtWritten := expiresAtWritten - {id};
      if ok {
        records := records[id := Gone(records[id])];
      }
    }

    static method BuildProtocols(raw: seq<Raw>) returns (protocols: seq<string>)
      ensures protocols == Texts(raw)
    {
      protocols := [];
      for i := 0 to |raw|
        invariant protocols == Texts(raw[..i])
      {
        assert raw[..i + 1][..i] == raw[..i];
        if raw[i].Text? {
          protocols := protocols + [raw[i].text];
        }
      }
      assert raw[..|raw|] == raw;
    }

    static method BuildAssets(status: Raw) returns (result: seq<AssetView>)
      ensures result == RawViews(ListAt(status, "assets"))
    {
      var raw := ListAt(status, "assets");
      result := [];
      for i := 0 to |raw|
        invariant result == RawViews(raw[..i])
      {
        assert raw[..i + 1][..i] == raw[..i];
        if raw[i].Fields? {
          var phase := TextAt(raw[i], "phase");
          var protocols := BuildProtocols(ListAt(raw[i], "protocols"));
          result := result + [AssetView(TextAt(raw[i], "name"), AssetState(phase), AssetPower(phase), protocols)];
        }
      }
      assert raw[..|raw|] == raw;
    }
  }
}
