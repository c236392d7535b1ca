/** What is seen of the tabs: the titles of a group, and what each operation changes. */
module TabsShown {
  import opened Options
  import opened Strings
  import opened Tabs

  // ---- Titles ----

  predicate Of(t: Tab, server: string, kind: string) {
    t.serverId == server && t.kind == kind
  }

  /** The places of the tabs of a server and kind among the first `n`. */
  function Peers(tabs: seq<Tab>, n: nat, server: string, kind: string): set<nat>
    requires n <= |tabs|
  {
    set i: nat | i < n && Of(tabs[i], server, kind)
  }

  /** A tab alone bears the name; one of several the name and its number. */
  ghost predicate Bears(title: string, name: string, several: nat, k: nat) {
    if several == 1 then title == name
    else exists d :: d != "" && IsDigits(d) && Value(d) == k && title == name + " (" + d + ")"
  }

  lemma LabelBears(name: string, n: nat, k: nat)
    ensures Bears(LabelAt(name, n, k), name, n, k)
  {
    DecValue(k);
    assert name + (" (" + Dec(k) + ")") == name + " (" + Dec(k) + ")";
  }

  lemma {:induction false} GroupCount(tabs: seq<Tab>, n: nat, server: string, kind: string)
    requires n <= |tabs|
    ensures |Group(tabs[..n], server, kind)| == |Peers(tabs, n, server, kind)|
  {
    if n > 0 {
      GroupCount(tabs, n - 1, server, kind);
      assert tabs[..n] == tabs[..n - 1] + [tabs[n - 1]];
      GroupAppend(tabs[..n - 1], [tabs[n - 1]], server, kind);
      var before := Peers(tabs, n - 1, server, kind);
      assert Peers(tabs, n, server, kind) == before + if Of(tabs[n - 1], server, kind) then {n - 1} else {};
    }
  }

  lemma {:induction false} InGroupAt(tabs: seq<Tab>, t: Tab, server: string, kind: string) returns (i: nat)
    requires t in Group(tabs, server, kind)
    ensures i < |tabs| && tabs[i] == t && Of(t, server, kind)
  {
    if InGroup(tabs[0], server, kind) && t == tabs[0] {
      i := 0;
    } else {
      i := InGroupAt(tabs[1..], t, server, kind);
      i := i + 1;
    }
  }

  lemma {:induction false} LabelOfSome(g: seq<Tab>, title: string) returns (t: Tab)
    requires title in Labels(g)
    ensures t in g && t.title == title
  {
    if g[0].title == title {
      t := g[0];
    } else {
      t := LabelOfSome(g[1..], title);
    }
  }

  lemma {:induction false} ExpectedAt(name: string, n: nat, k: nat, left: nat, j: nat)
    requires j < left
    ensures |ExpectedFrom(name, n, k, left)| == left && ExpectedFrom(name, n, k, left)[j] == LabelAt(name, n, k + j)
    decreases left
  {
    ExpectedLength(name, n, k, left);
    if j > 0 {
      ExpectedAt(name, n, k + 1, left - 1, j - 1);
    }
  }

  lemma ExpectedBears(name: string, n: nat, title: string) returns (k: nat)
    requires title in Expected(name, n)
    ensures 1 <= k <= n && Bears(title, name, n, k)
  {
    ExpectedLength(name, n, 1, n);
    var j :| 0 <= j < n && Expected(name, n)[j] == title;
    ExpectedAt(name, n, 1, n, j);
    k := 1 + j;
    LabelBears(name, n, k);
  }

  ghost predicate Numbered(title: string, name: string, n: nat) {
    exists k: nat :: 1 <= k <= n && Bears(title, name, n, k)
  }

  /** Some tab of the group bears number `k`. */
  ghost predicate Borne(tabs: seq<Tab>, server: string, kind: string, n: nat, k: nat) {
    exists i :: i in Peers(tabs, |tabs|, server, kind) && Bears(tabs[i].title, server, n, k)
  }

  lemma TitleNumbered(tabs: seq<Tab>, server: string, kind: string, n: nat, i: nat)
    requires LabelsOk(tabs, server, kind) && n == |Group(tabs, server, kind)| && i < |tabs| && Of(tabs[i], server, kind)
    ensures Numbered(tabs[i].title, server, n)
  {
    InGroupLabels(tabs, i);
    assert tabs[i].title in multiset(Labels(Group(tabs, server, kind)));
    assert tabs[i].title in Expected(server, n);
    var k := ExpectedBears(server, n, tabs[i].title);
  }

  lemma LabelFound(tabs: seq<Tab>, server: string, kind: string, title: string) returns (i: nat)
    requires title in GroupLabels(tabs, server, kind)
    ensures i < |tabs| && Of(tabs[i], server, kind) && tabs[i].title == title
  {
    var t := LabelOfSome(Group(tabs, server, kind), title);
    i := InGroupAt(tabs, t, server, kind);
  }

  lemma ExpectedIn(name: string, n: nat, k: nat, labels: seq<string>)
    requires multiset(labels) == multiset(Expected(name, n)) && 1 <= k <= n
    ensures LabelAt(name, n, k) in labels
  {
    ExpectedAt(name, n, 1, n, k - 1);
    assert Expected(name, n)[k - 1] in multiset(Expected(name, n));
    assert LabelAt(name, n, k) in multiset(labels);
  }

  lemma NumberBorne(tabs: seq<Tab>, server: string, kind: string, n: nat, k: nat)
    requires LabelsOk(tabs, server, kind) && n == |Group(tabs, server, kind)| && 1 <= k <= n
    ensures Borne(tabs, server, kind, n, k)
  {
    ExpectedIn(server, n, k, GroupLabels(tabs, server, kind));
    var i := LabelFound(tabs, server, kind, LabelAt(server, n, k));
    LabelBears(server, n, k);
    assert i in Peers(tabs, |tabs|, server, kind) && Bears(tabs[i].title, server, n, k);
  }

  /** In every reachable state, one tab of a server and kind bears the server's name; of several, each bears
      the name with a number from one to their count, and each of these numbers is borne. */
  lemma TitlesShown(ops: seq<Op>, server: string, kind: string)
    ensures var tabs := Exec(ops).tabs;
            var n := |Peers(tabs, |tabs|, server, kind)|;
            && (forall i :: i in Peers(tabs, |tabs|, server, kind) ==> Numbered(tabs[i].title, server, n))
            && (forall k :: 1 <= k <= n ==> Borne(tabs, server, kind, n, k))
  {
    ExecKeepsInv(ops);
    var tabs := Exec(ops).tabs;
    var n := |Group(tabs, server, kind)|;
    GroupCount(tabs, |tabs|, server, kind);
    assert tabs[..|tabs|] == tabs;
    assert LabelsOk(tabs, server, kind);
    forall i | i in Peers(tabs, |tabs|, server, kind)
      ensures Numbered(tabs[i].title, server, n)
    {
      TitleNumbered(tabs, server, kind, n, i);
    }
    forall k | 1 <= k <= n
      ensures Borne(tabs, server, kind, n, k)
    {
      NumberBorne(tabs, server, kind, n, k);
    }
  }

  // ---- Relabelling ----

  /** The tabs of a server and kind are numbered from left to right. */
  ghost predicate InOrder(tabs: seq<Tab>, server: string, kind: string, name: string) {
    forall i :: i in Peers(tabs, |tabs|, server, kind) ==>
      Bears(tabs[i].title, name, |Peers(tabs, |tabs|, server, kind)|, |Peers(tabs, i, server, kind)| + 1)
  }

  /** The same tabs but for the titles of a server and kind. */
  ghost predicate Retitled(a: seq<Tab>, b: seq<Tab>, server: string, kind: string) {
    && |a| == |b|
    && forall i :: 0 <= i < |a| ==>
         && b[i] == a[i].(title := b[i].title)
         && (!Of(a[i], server, kind) ==> b[i] == a[i])
  }

  lemma {:induction false} LabelFromAt(tabs: seq<Tab>, server: string, kind: string, name: string, n: nat, k: nat, i: nat)
    requires i < |tabs|
    ensures var r := LabelFrom(tabs, server, kind, name, n, k);
            && |r| == |tabs|
            && r[i] == if Of(tabs[i], server, kind)
                       then tabs[i].(title := LabelAt(name, n, k + |Group(tabs[..i], server, kind)|)) else tabs[i]
  {
    LabelFromKeeps(tabs, server, kind, name, n, k);
    if i > 0 {
      LabelFromAt(tabs[1..], server, kind, name, n, if InGroup(tabs[0], server, kind) then k + 1 else k, i - 1);
      assert tabs[..i][1..] == tabs[1..][..i - 1];
    }
  }

  lemma SamePeers(a: seq<Tab>, b: seq<Tab>, n: nat, server: string, kind: string)
    requires Retitled(a, b, server, kind) && n <= |a|
    ensures Peers(a, n, server, kind) == Peers(b, n, server, kind)
  {
  }

  lemma RelabelShown(tabs: seq<Tab>, server: string, kind: string, name: string)
    ensures var r := Relabel(tabs, server, kind, name);
            Retitled(tabs, r, server, kind) && InOrder(r, server, kind, name)
  {
    var n := |Group(tabs, server, kind)|;
    var r := Relabel(tabs, server, kind, name);
    LabelFromKeeps(tabs, server, kind, name, n, 1);
    GroupCount(tabs, |tabs|, server, kind);
    assert tabs[..|tabs|] == tabs;
    forall i | 0 <= i < |tabs|
      ensures r[i] == tabs[i].(title := r[i].title)
      ensures !Of(tabs[i], server, kind) ==> r[i] == tabs[i]
      ensures Of(tabs[i], server, kind) ==> Bears(r[i].title, name, n, |Peers(tabs, i, server, kind)| + 1)
    {
      LabelFromAt(tabs, server, kind, name, n, 1, i);
      GroupCount(tabs, i, server, kind);
      LabelBears(name, n, 1 + |Group(tabs[..i], server, kind)|);
    }
    assert Retitled(tabs, r, server, kind);
    SamePeers(tabs, r, |tabs|, server, kind);
    forall i | i in Peers(r, |r|, server, kind)
      ensures Bears(r[i].title, name, n, |Peers(r, i, server, kind)| + 1)
    {
      SamePeers(tabs, r, i, server, kind);
    }
  }

  // ---- Operations ----

  lemma FreshTab(tabs: seq<Tab>, serial: nat, t: Tab)
    requires IdsOk(tabs, serial) && t.id == TabId(t.serverId, t.kind, serial + 1)
    ensures forall i :: 0 <= i < |tabs| ==> tabs[i].id != t.id
  {
    FreshTabIds(tabs, serial, t);
    var all := tabs + [t];
    assert all[|tabs|] == t && forall i :: 0 <= i < |tabs| ==> all[i] == tabs[i];
  }

  lemma RetitledLast(tabs: seq<Tab>, t: Tab, r: seq<Tab>, server: string, kind: string)
    requires Retitled(tabs + [t], r, server, kind)
    ensures |r| == |tabs| + 1 && Retitled(tabs + [r[|tabs|]], r, server, kind) && r[|tabs|] == t.(title := r[|tabs|].title)
  {
    var all := tabs + [t];
    assert all[|tabs|] == t && forall i :: 0 <= i < |tabs| ==> all[i] == tabs[i];
  }

  lemma OpenedTabs(tabs: seq<Tab>, serial: nat, t: Tab, r: seq<Tab>)
    requires IdsOk(tabs, serial) && t.id == TabId(t.serverId, t.kind, serial + 1)
    requires r == Relabel(tabs + [t], t.serverId, t.kind, t.serverId)
    ensures |r| == |tabs| + 1 && r[|tabs|] == t.(title := r[|tabs|].title)
    ensures forall i :: 0 <= i < |tabs| ==> tabs[i].id != t.id
    ensures Retitled(tabs + [r[|tabs|]], r, t.serverId, t.kind) && InOrder(r, t.serverId, t.kind, t.serverId)
  {
    RelabelShown(tabs + [t], t.serverId, t.kind, t.serverId);
    FreshTab(tabs, serial, t);
    RetitledLast(tabs, t, r, t.serverId, t.kind);
  }

  /** Opening adds a tab at the end, with an id no tab has, makes it the active one and numbers its group
      anew; the other tabs stay. At sixteen tabs there is only the message. */
  lemma OpenShown(s: State, server: string, kind: string)
    requires Inv(s)
    ensures var s' := Apply(s, Open(server, kind));
            if |s.tabs| >= 16 then s' == s.(limitError := s'.limitError) && s'.limitError.Some?
            else
              && |s'.tabs| == |s.tabs| + 1
              && var t := s'.tabs[|s.tabs|];
                 && Of(t, server, kind)
                 && s'.active == Some(t.id) && s'.limitError == None
                 && (forall i :: 0 <= i < |s.tabs| ==> s.tabs[i].id != t.id)
                 && Retitled(s.tabs + [t], s'.tabs, server, kind)
                 && InOrder(s'.tabs, server, kind, server)
  {
    if |s.tabs| < 16 {
      OpenedTabs(s.tabs, s.serial, Tab(TabId(server, kind, s.serial + 1), server, kind, server),
                 Apply(s, Open(server, kind)).tabs);
    }
  }

  lemma OtherName(tabs: seq<Tab>, server: string, kind: string, name: string)
    requires InOrder(tabs, server, kind, name) && (name == server || Group(tabs, server, kind) == [])
    ensures InOrder(tabs, server, kind, server)
  {
    GroupCount(tabs, |tabs|, server, kind);
    assert tabs[..|tabs|] == tabs;
  }

  lemma SameGroupSize(a: seq<Tab>, b: seq<Tab>, server: string, kind: string)
    requires Retitled(a, b, server, kind)
    ensures |Group(a, server, kind)| == |Group(b, server, kind)|
  {
    SamePeers(a, b, |a|, server, kind);
    GroupCount(a, |a|, server, kind);
    GroupCount(b, |b|, server, kind);
    assert a[..|a|] == a && b[..|b|] == b;
  }

  lemma ClosedTabs(tabs: seq<Tab>, i: nat, r: seq<Tab>)
    requires i < |tabs| && LabelsOk(tabs, tabs[i].serverId, tabs[i].kind)
    requires r == Relabel(tabs[..i] + tabs[i + 1..], tabs[i].serverId, tabs[i].kind, StripNumber(tabs[i].title))
    ensures Retitled(tabs[..i] + tabs[i + 1..], r, tabs[i].serverId, tabs[i].kind)
    ensures InOrder(r, tabs[i].serverId, tabs[i].kind, tabs[i].serverId)
  {
    var t, rest := tabs[i], tabs[..i] + tabs[i + 1..];
    RelabelShown(rest, t.serverId, t.kind, StripNumber(t.title));
    NameRecovered(tabs, i);
    CutGroup(tabs, i, t.serverId, t.kind);
    SameGroupSize(rest, r, t.serverId, t.kind);
    OtherName(r, t.serverId, t.kind, StripNumber(t.title));
  }

  lemma FoundAt(s: State, i: nat)
    requires Inv(s) && i < |s.tabs|
    ensures IndexOf(s.tabs, s.tabs[i].id) == Some(i)
    ensures Without(s.tabs, s.tabs[i].id) == s.tabs[..i] + s.tabs[i + 1..]
  {
    WithoutAt(s.tabs, i);
  }

  /** Closing takes out the tab at `i` and no other and numbers its group anew, under the name of its
      server; the last tab becomes active if the closed one was. */
  lemma CloseShown(s: State, i: nat)
    requires Inv(s) && i < |s.tabs|
    ensures var t, s' := s.tabs[i], Apply(s, Close(s.tabs[i].id));
            && Retitled(s.tabs[..i] + s.tabs[i + 1..], s'.tabs, t.serverId, t.kind)
            && InOrder(s'.tabs, t.serverId, t.kind, t.serverId)
            && s'.limitError == None
            && s'.active == if s.active != Some(t.id) then s.active
                            else if s'.tabs == [] then None else Some(s'.tabs[|s'.tabs| - 1].id)
  {
    FoundAt(s, i);
    assert LabelsOk(s.tabs, s.tabs[i].serverId, s.tabs[i].kind);
    ClosedTabs(s.tabs, i, Apply(s, Close(s.tabs[i].id)).tabs);
  }

  /** Closing a tab that is not there leaves all tabs and the active one. */
  lemma CloseNone(s: State, id: string)
    requires Inv(s) && ActiveOk(s) && forall i :: 0 <= i < |s.tabs| ==> s.tabs[i].id != id
    ensures Apply(s, Close(id)) == s.(limitError := None)
  {
    WithoutNone(s.tabs, id);
  }

  /** Moving the tab at `from` to the place `to` keeps the others in order and changes nothing else. */
  lemma MoveShown(s: State, from: nat, to: nat)
    requires Inv(s) && from < |s.tabs| && to < |s.tabs|
    ensures var s' := Apply(s, Move(s.tabs[from].id, s.tabs[to].id));
            && s' == s.(tabs := s'.tabs)
            && |s'.tabs| == |s.tabs| && s'.tabs[to] == s.tabs[from]
            && s'.tabs[..to] + s'.tabs[to + 1..] == s.tabs[..from] + s.tabs[from + 1..]
  {
    FoundAt(s, from);
    FoundAt(s, to);
    SplicedPlaces(s.tabs, from, to);
    if from == to {
      assert s.tabs[..from] + s.tabs[from + 1..] == s.tabs[..to] + s.tabs[to + 1..];
    }
  }

  lemma MoveNone(s: State, fromId: string, toId: string)
    requires (forall i :: 0 <= i < |s.tabs| ==> s.tabs[i].id != fromId) || (forall i :: 0 <= i < |s.tabs| ==> s.tabs[i].id != toId)
    ensures Apply(s, Move(fromId, toId)) == s
  {
  }

  /** Selecting changes the active tab only; a reset clears all but the counter of ids. */
  lemma SelectAndReset(s: State, id: string)
    ensures Apply(s, Select(id)) == s.(active := Some(id))
    ensures Apply(s, Reset) == State([], None, None, s.serial)
  {
  }
}
