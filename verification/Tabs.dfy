/** Terminal tabs: opening, closing, moving and relabelling. */
module Tabs {
  import opened Options
  import opened Strings

  const MAX_TABS := 16
  const LIMIT_MESSAGE := "Maximum of 16 terminal connections reached. Close a tab to open a new one."

  datatype Tab = Tab(id: string, serverId: string, kind: string, title: string)

  datatype State = State(tabs: seq<Tab>, active: Option<string>, limitError: Option<string>, serial: nat)

  datatype Op =
    | Open(server: string, kind: string)
    | Close(id: string)
    | Move(fromId: string, toId: string)
    | Select(id: string)
    | Reset

  const START := State([], None, None, 0)

  // ---- Labels ----

  function TabId(server: string, kind: string, n: nat): string {
    server + "-" + kind + "-" + Dec(n)
  }

  function Numbered(name: string, k: nat): string {
    name + (" (" + Dec(k) + ")")
  }

  /** How many digits end `s`. */
  function DigitRun(s: string): (n: nat)
    ensures n <= |s|
    ensures forall i :: |s| - n <= i < |s| ==> '0' <= s[i] <= '9'
    ensures n < |s| ==> !('0' <= s[|s| - n - 1] <= '9')
  {
    if s != [] && '0' <= s[|s| - 1] <= '9' then 1 + DigitRun(s[..|s| - 1]) else 0
  }

  /** The part of a title before a number in parentheses. */
  function HeadOf(front: string, n: nat, title: string): string
    requires n <= |front|
  {
    var head := front[..|front| - n];
    if n > 0 && |head| >= 2 && head[|head| - 2..] == " (" then head[..|head| - 2] else title
  }

  /** The title without a final number in parentheses, if it has one. */
  function StripNumber(title: string): string {
    if title == [] || title[|title| - 1] != ')' then title
    else HeadOf(title[..|title| - 1], DigitRun(title[..|title| - 1]), title)
  }

  predicate InGroup(t: Tab, server: string, kind: string) {
    t.serverId == server && t.kind == kind
  }

  /** The tabs of one server and kind, in order. */
  function Group(tabs: seq<Tab>, server: string, kind: string): seq<Tab> {
    if tabs == [] then []
    else (if InGroup(tabs[0], server, kind) then [tabs[0]] else []) + Group(tabs[1..], server, kind)
  }

  function LabelAt(name: string, n: nat, k: nat): string {
    if n == 1 then name else Numbered(name, k)
  }

  /** The tabs of a group of `n` labelled anew, numbers starting at `k`. */
  function LabelFrom(tabs: seq<Tab>, server: string, kind: string, name: string, n: nat, k: nat): seq<Tab> {
    if tabs == [] then []
    else if InGroup(tabs[0], server, kind)
    then [tabs[0].(title := LabelAt(name, n, k))] + LabelFrom(tabs[1..], server, kind, name, n, k + 1)
    else [tabs[0]] + LabelFrom(tabs[1..], server, kind, name, n, k)
  }

  function Relabel(tabs: seq<Tab>, server: string, kind: string, name: string): seq<Tab> {
    LabelFrom(tabs, server, kind, name, |Group(tabs, server, kind)|, 1)
  }

  // ---- Operations ----

  function IndexOf(tabs: seq<Tab>, id: string): (r: Option<nat>)
    ensures r.Some? ==> r.value < |tabs| && tabs[r.value].id == id
    ensures r.None? ==> forall i :: 0 <= i < |tabs| ==> tabs[i].id != id
  {
    if tabs == [] then None
    else if tabs[0].id == id then Some(0)
    else match IndexOf(tabs[1..], id) case None => None case Some(i) => Some(i + 1)
  }

  function Without(tabs: seq<Tab>, id: string): seq<Tab> {
    if tabs == [] then []
    else (if tabs[0].id == id then [] else [tabs[0]]) + Without(tabs[1..], id)
  }

  function LastId(tabs: seq<Tab>): Option<string> {
    if tabs == [] then None else Some(tabs[|tabs| - 1].id)
  }

  function Opened(s: State, server: string, kind: string): State {
    if |s.tabs| >= MAX_TABS then s.(limitError := Some(LIMIT_MESSAGE))
    else
      var t := Tab(TabId(server, kind, s.serial + 1), server, kind, server);
      State(Relabel(s.tabs + [t], server, kind, server), Some(t.id), None, s.serial + 1)
  }

  function Closed(s: State, id: string): State {
    var rest := Without(s.tabs, id);
    var tabs := match IndexOf(s.tabs, id)
                case None => rest
                case Some(i) =>
                  var t := s.tabs[i];
                  Relabel(rest, t.serverId, t.kind, StripNumber(t.title));
    State(tabs, if s.active == Some(id) then LastId(tabs) else s.active, None, s.serial)
  }

  function Spliced(tabs: seq<Tab>, from: nat, to: nat): seq<Tab>
    requires from < |tabs| && to < |tabs|
  {
    var rest := tabs[..from] + tabs[from + 1..];
    rest[..to] + [tabs[from]] + rest[to..]
  }

  function Moved(s: State, fromId: string, toId: string): State {
    var from, to := IndexOf(s.tabs, fromId), IndexOf(s.tabs, toId);
    if fromId == toId || from.None? || to.None? then s
    else s.(tabs := Spliced(s.tabs, from.value, to.value))
  }

  function Apply(s: State, op: Op): State {
    match op
    case Open(server, kind) => Opened(s, server, kind)
    case Close(id) => Closed(s, id)
    case Move(fromId, toId) => Moved(s, fromId, toId)
    case Select(id) => s.(active := Some(id))
    case Reset => State([], None, None, s.serial)
  }

  function Exec(ops: seq<Op>): State {
    if ops == [] then START else Apply(Exec(ops[..|ops| - 1]), ops[|ops| - 1])
  }

  // ---- The invariant ----

  function Labels(tabs: seq<Tab>): (r: seq<string>)
    ensures |r| == |tabs|
  {
    if tabs == [] then [] else [tabs[0].title] + Labels(tabs[1..])
  }

  /** The labels of a group of `n`, numbers starting at `k`. */
  function ExpectedFrom(name: string, n: nat, k: nat, left: nat): seq<string>
    decreases left
  {
    if left == 0 then [] else [LabelAt(name, n, k)] + ExpectedFrom(name, n, k + 1, left - 1)
  }

  function Expected(name: string, n: nat): seq<string> {
    ExpectedFrom(name, n, 1, n)
  }

  /** A single tab bears the server's name; n of them bear it with the numbers 1 to n in some order. */
  ghost predicate LabelsOk(tabs: seq<Tab>, server: string, kind: string) {
    var g := Group(tabs, server, kind);
    multiset(Labels(g)) == multiset(Expected(server, |g|))
  }

  ghost predicate IdOk(t: Tab, serial: nat) {
    exists n: nat :: n <= serial && t.id == TabId(t.serverId, t.kind, n)
  }

  ghost predicate IdsOk(tabs: seq<Tab>, serial: nat) {
    && (forall i :: 0 <= i < |tabs| ==> IdOk(tabs[i], serial))
    && (forall i, j :: 0 <= i < j < |tabs| ==> tabs[i].id != tabs[j].id)
  }

  ghost predicate ActiveOk(s: State) {
    match s.active
    case None => s.tabs == []
    case Some(id) => IndexOf(s.tabs, id).Some?
  }

  ghost predicate Inv(s: State) {
    && |s.tabs| <= MAX_TABS
    && IdsOk(s.tabs, s.serial)
    && forall server, kind :: LabelsOk(s.tabs, server, kind)
  }

  // ---- Groups ----

  lemma {:induction false} GroupAppend(a: seq<Tab>, b: seq<Tab>, server: string, kind: string)
    ensures Group(a + b, server, kind) == Group(a, server, kind) + Group(b, server, kind)
  {
    if a == [] {
      assert a + b == b;
    } else {
      assert (a + b)[1..] == a[1..] + b;
      GroupAppend(a[1..], b, server, kind);
    }
  }

  lemma {:induction false} LabelsAppend(a: seq<Tab>, b: seq<Tab>)
    ensures Labels(a + b) == Labels(a) + Labels(b)
  {
    if a == [] {
      assert a + b == b;
    } else {
      assert (a + b)[1..] == a[1..] + b;
      LabelsAppend(a[1..], b);
    }
  }

  /** The titles of a group. */
  function GroupLabels(tabs: seq<Tab>, server: string, kind: string): seq<string> {
    Labels(Group(tabs, server, kind))
  }

  lemma GroupLabelsAppend(a: seq<Tab>, b: seq<Tab>, server: string, kind: string)
    ensures GroupLabels(a + b, server, kind) == GroupLabels(a, server, kind) + GroupLabels(b, server, kind)
  {
    GroupAppend(a, b, server, kind);
    LabelsAppend(Group(a, server, kind), Group(b, server, kind));
  }

  // ---- Relabelling ----

  lemma {:induction false} LabelFromKeeps(tabs: seq<Tab>, server: string, kind: string, name: string, n: nat, k: nat)
    ensures var r := LabelFrom(tabs, server, kind, name, n, k);
            && |r| == |tabs|
            && forall i :: 0 <= i < |tabs| ==>
                 r[i].id == tabs[i].id && r[i].serverId == tabs[i].serverId && r[i].kind == tabs[i].kind
  {
    if tabs != [] {
      LabelFromKeeps(tabs[1..], server, kind, name, n,
                     if InGroup(tabs[0], server, kind) then k + 1 else k);
    }
  }

  lemma {:induction false} LabelFromGroup(tabs: seq<Tab>, server: string, kind: string, name: string, n: nat, k: nat)
    ensures GroupLabels(LabelFrom(tabs, server, kind, name, n, k), server, kind) ==
            ExpectedFrom(name, n, k, |Group(tabs, server, kind)|)
  {
    if tabs != [] {
      var k' := if InGroup(tabs[0], server, kind) then k + 1 else k;
      var rest := LabelFrom(tabs[1..], server, kind, name, n, k');
      LabelFromGroup(tabs[1..], server, kind, name, n, k');
      var r := LabelFrom(tabs, server, kind, name, n, k);
      assert r == [r[0]] + rest;
      GroupLabelsAppend([r[0]], rest, server, kind);
      assert Group([r[0]], server, kind) == if InGroup(r[0], server, kind) then [r[0]] else [];
    }
  }

  lemma {:induction false} LabelFromOther(tabs: seq<Tab>, server: string, kind: string, name: string, n: nat, k: nat,
                                          server': string, kind': string)
    requires (server', kind') != (server, kind)
    ensures Group(LabelFrom(tabs, server, kind, name, n, k), server', kind') == Group(tabs, server', kind')
  {
    if tabs != [] {
      LabelFromOther(tabs[1..], server, kind, name, n,
                     if InGroup(tabs[0], server, kind) then k + 1 else k, server', kind');
    }
  }

  /** Relabelling with the right name, or of an empty group, puts that group right and leaves the
      others alone. */
  lemma RelabelOk(tabs: seq<Tab>, server: string, kind: string, name: string, server': string, kind': string)
    requires name == server || Group(tabs, server, kind) == []
    requires (server', kind') != (server, kind) ==> LabelsOk(tabs, server', kind')
    ensures LabelsOk(Relabel(tabs, server, kind, name), server', kind')
  {
    var n := |Group(tabs, server, kind)|;
    if (server', kind') == (server, kind) {
      LabelFromGroup(tabs, server, kind, name, n, 1);
      ExpectedLength(name, n, 1, n);
    } else {
      LabelFromOther(tabs, server, kind, name, n, 1, server', kind');
    }
  }

  lemma {:induction false} ExpectedLength(name: string, n: nat, k: nat, left: nat)
    ensures |ExpectedFrom(name, n, k, left)| == left
    decreases left
  {
    if left > 0 {
      ExpectedLength(name, n, k + 1, left - 1);
    }
  }

  // ---- Ids ----

  lemma IdNumber(x: string, y: string, m: nat, n: nat)
    ensures x + "-" + Dec(m) == y + "-" + Dec(n) ==> m == n
  {
    if x + "-" + Dec(m) == y + "-" + Dec(n) {
      SameDigits(x, Dec(m), y, Dec(n));
      DecInjective(m, n);
    }
  }

  lemma SameDigits(x: string, d: string, y: string, e: string)
    requires x + "-" + d == y + "-" + e && IsDigits(d) && IsDigits(e)
    ensures d == e
  {
    var s := x + "-" + d;
    assert s[|x|] == '-' && s[|y|] == '-';
    assert forall i :: |x| < i < |s| ==> s[i] == d[i - |x| - 1];
    assert forall i :: |y| < i < |s| ==> s[i] == e[i - |y| - 1];
    assert d == s[|x| + 1..] && e == s[|y| + 1..];
  }

  lemma NewIdIsFresh(t: Tab, serial: nat, server: string, kind: string)
    requires IdOk(t, serial)
    ensures t.id != TabId(server, kind, serial + 1)
    ensures IdOk(t, serial + 1)
  {
    var n: nat :| n <= serial && t.id == TabId(t.serverId, t.kind, n);
    IdNumber(t.serverId + "-" + t.kind, server + "-" + kind, n, serial + 1);
  }

  // ---- Names ----

  lemma DigitRunIs(a: string, d: string)
    requires a != [] && !('0' <= a[|a| - 1] <= '9') && IsDigits(d)
    ensures DigitRun(a + d) == |d|
  {
    var s, n := a + d, DigitRun(a + d);
    assert s[|a| - 1] == a[|a| - 1];
    assert forall i :: |a| <= i < |s| ==> s[i] == d[i - |a|];
  }

  lemma HeadIs(name: string, d: string, title: string)
    requires d != ""
    ensures HeadOf(name + " (" + d, |d|, title) == name
  {
    var head := name + " (";
    assert (head + d)[..|head|] == head;
    assert head[|head| - 2..] == " (" && head[..|head| - 2] == name;
  }

  lemma NumberedParts(name: string, k: nat)
    ensures var t := Numbered(name, k);
            t != [] && t[|t| - 1] == ')' && t[..|t| - 1] == name + " (" + Dec(k)
  {
  }

  lemma StripParts(title: string, front: string, n: nat)
    requires title != [] && title[|title| - 1] == ')' && title[..|title| - 1] == front && DigitRun(front) == n
    ensures StripNumber(title) == HeadOf(front, n, title)
  {
  }

  /** Stripping recovers the name, whatever the name ends in. */
  lemma StripNumbered(name: string, k: nat)
    ensures StripNumber(Numbered(name, k)) == name
  {
    var d := Dec(k);
    NumberedParts(name, k);
    DigitRunIs(name + " (", d);
    StripParts(Numbered(name, k), name + " (" + d, |d|);
    HeadIs(name, d, Numbered(name, k));
  }

  lemma {:induction false} ExpectedIs(name: string, n: nat, k: nat, left: nat, title: string)
    requires title in ExpectedFrom(name, n, k, left)
    ensures n == 1 ==> title == name
    ensures n != 1 ==> exists j: nat :: title == Numbered(name, j)
    decreases left
  {
    if title != LabelAt(name, n, k) {
      ExpectedIs(name, n, k + 1, left - 1, title);
    }
  }

  lemma {:induction false} InGroupLabels(tabs: seq<Tab>, i: nat)
    requires i < |tabs|
    ensures tabs[i].title in GroupLabels(tabs, tabs[i].serverId, tabs[i].kind)
  {
    var t := tabs[i];
    assert tabs == tabs[..i] + ([t] + tabs[i + 1..]);
    GroupLabelsAppend(tabs[..i], [t] + tabs[i + 1..], t.serverId, t.kind);
    GroupLabelsAppend([t], tabs[i + 1..], t.serverId, t.kind);
    assert Group([t], t.serverId, t.kind) == [t];
  }

  /** What closing strips off is the number, so in a group of two or more the name survives. */
  lemma NameRecovered(tabs: seq<Tab>, i: nat)
    requires i < |tabs| && LabelsOk(tabs, tabs[i].serverId, tabs[i].kind)
    ensures |Group(tabs, tabs[i].serverId, tabs[i].kind)| != 1 ==>
              StripNumber(tabs[i].title) == tabs[i].serverId
  {
    var t := tabs[i];
    var g := Group(tabs, t.serverId, t.kind);
    InGroupLabels(tabs, i);
    assert t.title in multiset(Labels(g));
    assert t.title in Expected(t.serverId, |g|);
    ExpectedIs(t.serverId, |g|, 1, |g|, t.title);
    if |g| != 1 {
      var j: nat :| t.title == Numbered(t.serverId, j);
      StripNumbered(t.serverId, j);
    }
  }

  // ---- Each operation keeps the invariant ----

  lemma FreshTabIds(tabs: seq<Tab>, serial: nat, t: Tab)
    requires IdsOk(tabs, serial) && t.id == TabId(t.serverId, t.kind, serial + 1)
    ensures IdsOk(tabs + [t], serial + 1)
  {
    forall i | 0 <= i < |tabs|
      ensures tabs[i].id != t.id && IdOk(tabs[i], serial + 1)
    {
      NewIdIsFresh(tabs[i], serial, t.serverId, t.kind);
    }
    assert IdOk(t, serial + 1);
  }

  lemma OtherGroupsStay(tabs: seq<Tab>, t: Tab, server: string, kind: string)
    requires !InGroup(t, server, kind) && LabelsOk(tabs, server, kind)
    ensures LabelsOk(tabs + [t], server, kind)
  {
    GroupAppend(tabs, [t], server, kind);
    assert Group([t], server, kind) == [];
    assert Group(tabs, server, kind) + [] == Group(tabs, server, kind);
  }

  lemma OpenedKeepsInv(s: State, server: string, kind: string)
    requires Inv(s)
    ensures Inv(Opened(s, server, kind))
  {
    if |s.tabs| < MAX_TABS {
      var t := Tab(TabId(server, kind, s.serial + 1), server, kind, server);
      var tabs := s.tabs + [t];
      FreshTabIds(s.tabs, s.serial, t);
      RelabelKeepsIds(tabs, server, kind, server, s.serial + 1);
      forall server', kind'
        ensures LabelsOk(Relabel(tabs, server, kind, server), server', kind')
      {
        assert LabelsOk(s.tabs, server', kind');
        if (server', kind') != (server, kind) {
          OtherGroupsStay(s.tabs, t, server', kind');
        }
        RelabelOk(tabs, server, kind, server, server', kind');
      }
    }
  }

  lemma RelabelKeepsIds(tabs: seq<Tab>, server: string, kind: string, name: string, serial: nat)
    requires IdsOk(tabs, serial)
    ensures IdsOk(Relabel(tabs, server, kind, name), serial)
    ensures |Relabel(tabs, server, kind, name)| == |tabs|
  {
    LabelFromKeeps(tabs, server, kind, name, |Group(tabs, server, kind)|, 1);
    var r := Relabel(tabs, server, kind, name);
    forall i | 0 <= i < |r|
      ensures IdOk(r[i], serial)
    {
      assert IdOk(tabs[i], serial);
    }
  }

  lemma {:induction false} WithoutNone(tabs: seq<Tab>, id: string)
    requires forall i :: 0 <= i < |tabs| ==> tabs[i].id != id
    ensures Without(tabs, id) == tabs
  {
    if tabs != [] {
      WithoutNone(tabs[1..], id);
    }
  }

  lemma {:induction false} WithoutAt(tabs: seq<Tab>, i: nat)
    requires i < |tabs| && forall j :: 0 <= j < |tabs| && j != i ==> tabs[j].id != tabs[i].id
    ensures Without(tabs, tabs[i].id) == tabs[..i] + tabs[i + 1..]
  {
    if i == 0 {
      WithoutNone(tabs[1..], tabs[0].id);
    } else {
      WithoutAt(tabs[1..], i - 1);
      assert [tabs[0]] + (tabs[1..][..i - 1] + tabs[1..][i..]) == tabs[..i] + tabs[i + 1..];
    }
  }

  lemma WithoutIs(tabs: seq<Tab>, id: string)
    requires forall i, j :: 0 <= i < j < |tabs| ==> tabs[i].id != tabs[j].id
    ensures Without(tabs, id) == match IndexOf(tabs, id)
                                 case None => tabs
                                 case Some(i) => tabs[..i] + tabs[i + 1..]
  {
    if IndexOf(tabs, id).Some? {
      WithoutAt(tabs, IndexOf(tabs, id).value);
    } else {
      WithoutNone(tabs, id);
    }
  }

  lemma CutKeepsIds(tabs: seq<Tab>, i: nat, serial: nat)
    requires i < |tabs| && IdsOk(tabs, serial)
    ensures IdsOk(tabs[..i] + tabs[i + 1..], serial)
  {
  }

  /** A group without its tab `i`. */
  lemma CutGroup(tabs: seq<Tab>, i: nat, server: string, kind: string)
    requires i < |tabs|
    ensures var g, g' := Group(tabs, server, kind), Group(tabs[..i] + tabs[i + 1..], server, kind);
            if InGroup(tabs[i], server, kind) then |g'| == |g| - 1 else g' == g
  {
    var t := tabs[i];
    assert tabs == tabs[..i] + ([t] + tabs[i + 1..]);
    GroupAppend(tabs[..i], [t] + tabs[i + 1..], server, kind);
    GroupAppend([t], tabs[i + 1..], server, kind);
    GroupAppend(tabs[..i], tabs[i + 1..], server, kind);
    assert Group([t], server, kind) == if InGroup(t, server, kind) then [t] else [];
  }

  lemma CloseGroups(tabs: seq<Tab>, i: nat, name: string, server: string, kind: string)
    requires i < |tabs| && LabelsOk(tabs, server, kind)
    requires name == tabs[i].serverId || |Group(tabs, tabs[i].serverId, tabs[i].kind)| == 1
    ensures LabelsOk(Relabel(tabs[..i] + tabs[i + 1..], tabs[i].serverId, tabs[i].kind, name), server, kind)
  {
    var t := tabs[i];
    CutGroup(tabs, i, t.serverId, t.kind);
    CutGroup(tabs, i, server, kind);
    RelabelOk(tabs[..i] + tabs[i + 1..], t.serverId, t.kind, name, server, kind);
  }

  lemma CloseAt(tabs: seq<Tab>, i: nat, serial: nat)
    requires i < |tabs| && IdsOk(tabs, serial) && forall server, kind :: LabelsOk(tabs, server, kind)
    ensures var t := tabs[i];
            var r := Relabel(tabs[..i] + tabs[i + 1..], t.serverId, t.kind, StripNumber(t.title));
            |r| == |tabs| - 1 && IdsOk(r, serial) && forall server, kind :: LabelsOk(r, server, kind)
  {
    var t := tabs[i];
    var rest, name := tabs[..i] + tabs[i + 1..], StripNumber(t.title);
    CutKeepsIds(tabs, i, serial);
    RelabelKeepsIds(rest, t.serverId, t.kind, name, serial);
    assert LabelsOk(tabs, t.serverId, t.kind);
    NameRecovered(tabs, i);
    forall server, kind
      ensures LabelsOk(Relabel(rest, t.serverId, t.kind, name), server, kind)
    {
      CloseGroups(tabs, i, name, server, kind);
    }
  }

  lemma ClosedKeepsInv(s: State, id: string)
    requires Inv(s)
    ensures Inv(Closed(s, id))
  {
    WithoutIs(s.tabs, id);
    if IndexOf(s.tabs, id).Some? {
      CloseAt(s.tabs, IndexOf(s.tabs, id).value, s.serial);
    }
  }

  lemma InsertedIds(rest: seq<Tab>, to: nat, item: Tab, serial: nat)
    requires to <= |rest| && IdsOk(rest, serial) && IdOk(item, serial)
    requires forall i :: 0 <= i < |rest| ==> rest[i].id != item.id
    ensures IdsOk(rest[..to] + [item] + rest[to..], serial)
  {
    var r := rest[..to] + [item] + rest[to..];
    assert forall i :: 0 <= i < |r| ==> r[i] == if i < to then rest[i] else if i == to then item else rest[i - 1];
  }

  lemma SplicedIds(tabs: seq<Tab>, from: nat, to: nat, serial: nat)
    requires from < |tabs| && to < |tabs| && IdsOk(tabs, serial)
    ensures IdsOk(Spliced(tabs, from, to), serial)
  {
    CutKeepsIds(tabs, from, serial);
    InsertedIds(tabs[..from] + tabs[from + 1..], to, tabs[from], serial);
  }

  lemma SameElements<T>(a: seq<T>, b: seq<T>, c: seq<T>, d: seq<T>, item: seq<T>)
    requires a + b == c + d
    ensures multiset(a + item + b) == multiset(c + item + d) && |a + item + b| == |c + item + d|
  {
    assert multiset(a + item + b) == multiset(a + b) + multiset(item);
    assert multiset(c + item + d) == multiset(c + d) + multiset(item);
    assert |a + b| == |c + d|;
  }

  /** The tab arrives where the target was, the others keep their order. */
  lemma SplicedPlaces(tabs: seq<Tab>, from: nat, to: nat)
    requires from < |tabs| && to < |tabs|
    ensures var r := Spliced(tabs, from, to);
            && |r| == |tabs| && r[to] == tabs[from]
            && r[..to] + r[to + 1..] == tabs[..from] + tabs[from + 1..]
  {
  }

  lemma SplicedGroup(tabs: seq<Tab>, from: nat, to: nat, server: string, kind: string)
    requires from < |tabs| && to < |tabs|
    ensures var g, g' := Group(tabs, server, kind), Group(Spliced(tabs, from, to), server, kind);
            |g'| == |g| && multiset(Labels(g')) == multiset(Labels(g))
  {
    var a, item, b := tabs[..from], [tabs[from]], tabs[from + 1..];
    var rest := a + b;
    var c, d := rest[..to], rest[to..];
    assert tabs == a + item + b && rest == c + d;
    ThreeParts(a, item, b, server, kind);
    ThreeParts(c, item, d, server, kind);
    GroupLabelsAppend(a, b, server, kind);
    GroupLabelsAppend(c, d, server, kind);
    SameElements(GroupLabels(a, server, kind), GroupLabels(b, server, kind),
                 GroupLabels(c, server, kind), GroupLabels(d, server, kind), GroupLabels(item, server, kind));
  }

  lemma ThreeParts(a: seq<Tab>, b: seq<Tab>, c: seq<Tab>, server: string, kind: string)
    ensures GroupLabels(a + b + c, server, kind) ==
            GroupLabels(a, server, kind) + GroupLabels(b, server, kind) + GroupLabels(c, server, kind)
  {
    GroupLabelsAppend(a + b, c, server, kind);
    GroupLabelsAppend(a, b, server, kind);
  }

  lemma MovedKeepsInv(s: State, fromId: string, toId: string)
    requires Inv(s)
    ensures Inv(Moved(s, fromId, toId))
  {
    var from, to := IndexOf(s.tabs, fromId), IndexOf(s.tabs, toId);
    if fromId != toId && from.Some? && to.Some? {
      SplicedIds(s.tabs, from.value, to.value, s.serial);
      forall server, kind
        ensures LabelsOk(Spliced(s.tabs, from.value, to.value), server, kind)
      {
        assert LabelsOk(s.tabs, server, kind);
        SplicedGroup(s.tabs, from.value, to.value, server, kind);
      }
    }
  }

  /** Ids stay unique, there are at most sixteen tabs, and every group is labelled with the bare
      name or a permutation of the numbers, over every sequence of operations. */
  lemma {:induction false} ExecKeepsInv(ops: seq<Op>)
    ensures Inv(Exec(ops))
  {
    if ops != [] {
      var s := Exec(ops[..|ops| - 1]);
      ExecKeepsInv(ops[..|ops| - 1]);
      match ops[|ops| - 1]
      case Open(server, kind) => OpenedKeepsInv(s, server, kind);
      case Close(id) => ClosedKeepsInv(s, id);
      case Move(fromId, toId) => MovedKeepsInv(s, fromId, toId);
      case _ =>
    }
  }

  // ---- The active tab ----

  ghost predicate HasId(tabs: seq<Tab>, id: string) {
    exists i :: 0 <= i < |tabs| && tabs[i].id == id
  }

  lemma RelabelHasIds(tabs: seq<Tab>, server: string, kind: string, name: string, id: string)
    ensures HasId(tabs, id) <==> HasId(Relabel(tabs, server, kind, name), id)
  {
    LabelFromKeeps(tabs, server, kind, name, |Group(tabs, server, kind)|, 1);
    var r := Relabel(tabs, server, kind, name);
    assert forall i :: 0 <= i < |tabs| ==> tabs[i].id == r[i].id;
  }

  lemma {:induction false} WithoutHasIds(tabs: seq<Tab>, id: string, other: string)
    requires other != id && HasId(tabs, other)
    ensures HasId(Without(tabs, id), other)
  {
    var i :| 0 <= i < |tabs| && tabs[i].id == other;
    if i > 0 {
      assert tabs[1..][i - 1].id == other;
      WithoutHasIds(tabs[1..], id, other);
      var j :| 0 <= j < |Without(tabs[1..], id)| && Without(tabs[1..], id)[j].id == other;
      assert Without(tabs, id)[if tabs[0].id == id then j else j + 1].id == other;
    } else {
      assert Without(tabs, id)[0].id == other;
    }
  }

  lemma SplicedHasIds(tabs: seq<Tab>, from: nat, to: nat, id: string)
    requires from < |tabs| && to < |tabs| && HasId(tabs, id)
    ensures HasId(Spliced(tabs, from, to), id)
  {
    var i :| 0 <= i < |tabs| && tabs[i].id == id;
    var rest := tabs[..from] + tabs[from + 1..];
    var k := if i < from then i else i - 1;
    assert i != from ==> rest[k] == tabs[i];
    var j := if i == from then to else if k < to then k else k + 1;
    assert Spliced(tabs, from, to)[j].id == id;
  }

  /** Whatever the operation, the active tab stays right, except that selecting an id no tab has
      leaves none active that exists: exactly then. */
  lemma ActiveKept(s: State, op: Op)
    requires Inv(s) && ActiveOk(s)
    ensures ActiveOk(Apply(s, op)) <==> (op.Select? ==> HasId(s.tabs, op.id))
  {
    match op
    case Open(server, kind) =>
      if |s.tabs| < MAX_TABS {
        var t := Tab(TabId(server, kind, s.serial + 1), server, kind, server);
        assert (s.tabs + [t])[|s.tabs|] == t;
        RelabelHasIds(s.tabs + [t], server, kind, server, t.id);
      }
    case Close(id) => ClosedKeepsActive(s, id);
    case Move(fromId, toId) =>
      if Moved(s, fromId, toId) != s && s.active.Some? {
        SplicedHasIds(s.tabs, IndexOf(s.tabs, fromId).value, IndexOf(s.tabs, toId).value, s.active.value);
      }
    case _ =>
  }

  lemma ClosedKeepsActive(s: State, id: string)
    requires Inv(s) && ActiveOk(s)
    ensures ActiveOk(Closed(s, id))
  {
    if s.active.Some? && s.active != Some(id) {
      WithoutHasIds(s.tabs, id, s.active.value);
      if IndexOf(s.tabs, id).Some? {
        var t := s.tabs[IndexOf(s.tabs, id).value];
        RelabelHasIds(Without(s.tabs, id), t.serverId, t.kind, StripNumber(t.title), s.active.value);
      }
    }
  }

  /** Every selection in `ops` is of a tab that is open at that moment. */
  ghost predicate SelectsOpenTabs(ops: seq<Op>) {
    ops != [] ==>
      && SelectsOpenTabs(ops[..|ops| - 1])
      && (ops[|ops| - 1].Select? ==> HasId(Exec(ops[..|ops| - 1]).tabs, ops[|ops| - 1].id))
  }

  /** No tab is active exactly when there is none, and else the active one exists. */
  lemma {:induction false} ExecKeepsActive(ops: seq<Op>)
    requires SelectsOpenTabs(ops)
    ensures var s := Exec(ops);
            && (s.active.None? <==> s.tabs == [])
            && (s.active.Some? ==> HasId(s.tabs, s.active.value))
    ensures ActiveOk(Exec(ops))
  {
    if ops != [] {
      ExecKeepsActive(ops[..|ops| - 1]);
      ExecKeepsInv(ops[..|ops| - 1]);
      ActiveKept(Exec(ops[..|ops| - 1]), ops[|ops| - 1]);
    }
  }

  // ---- Relabelling in place ----

  /** Where the tabs of a group are, in order. */
  function Matching(tabs: seq<Tab>, server: string, kind: string): (r: seq<nat>)
    ensures |r| == |Group(tabs, server, kind)|
    ensures forall j :: 0 <= j < |r| ==> r[j] < |tabs| && InGroup(tabs[r[j]], server, kind)
    ensures forall j, k :: 0 <= j < k < |r| ==> r[j] < r[k]
    ensures forall p :: 0 <= p < |tabs| && InGroup(tabs[p], server, kind) ==> p in r
  {
    if tabs == [] then []
    else
      var init, last := tabs[..|tabs| - 1], tabs[|tabs| - 1];
      GroupSnoc(init, last, server, kind);
      assert tabs == init + [last];
      Matching(init, server, kind) + if InGroup(last, server, kind) then [|tabs| - 1] else []
  }

  lemma GroupSnoc(tabs: seq<Tab>, t: Tab, server: string, kind: string)
    ensures Group(tabs + [t], server, kind) == Group(tabs, server, kind) + if InGroup(t, server, kind) then [t] else []
  {
    GroupAppend(tabs, [t], server, kind);
    assert Group([t], server, kind) == if InGroup(t, server, kind) then [t] else [];
  }

  lemma LabelFromCons(t: Tab, tabs: seq<Tab>, server: string, kind: string, name: string, n: nat, k: nat)
    ensures LabelFrom([t] + tabs, server, kind, name, n, k) ==
            (if InGroup(t, server, kind) then [t.(title := LabelAt(name, n, k))] + LabelFrom(tabs, server, kind, name, n, k + 1)
             else [t] + LabelFrom(tabs, server, kind, name, n, k))
    ensures |Group([t] + tabs, server, kind)| == |Group(tabs, server, kind)| + if InGroup(t, server, kind) then 1 else 0
  {
    assert ([t] + tabs)[1..] == tabs;
  }

  lemma {:induction false} LabelFromAppend(a: seq<Tab>, b: seq<Tab>, server: string, kind: string, name: string, n: nat, k: nat)
    ensures LabelFrom(a + b, server, kind, name, n, k) ==
            LabelFrom(a, server, kind, name, n, k) + LabelFrom(b, server, kind, name, n, k + |Group(a, server, kind)|)
  {
    if a == [] {
      assert a + b == b;
    } else {
      var t, rest := a[0], a[1..];
      assert a == [t] + rest && a + b == [t] + (rest + b);
      LabelFromAppend(rest, b, server, kind, name, n, if InGroup(t, server, kind) then k + 1 else k);
      LabelFromCons(t, rest, server, kind, name, n, k);
      LabelFromCons(t, rest + b, server, kind, name, n, k);
    }
  }

  /** `r` is `tabs` with the tab at `m[j]` labelled as number `j + 1` of `n`, the others untouched. */
  ghost predicate Labelled(tabs: seq<Tab>, m: seq<nat>, name: string, n: nat, r: seq<Tab>) {
    && |r| == |tabs|
    && (forall j :: 0 <= j < |m| ==> m[j] < |tabs| && r[m[j]] == tabs[m[j]].(title := LabelAt(name, n, j + 1)))
    && (forall p :: 0 <= p < |tabs| && p !in m ==> r[p] == tabs[p])
  }

  lemma LabelOne(t: Tab, server: string, kind: string, name: string, n: nat, k: nat)
    ensures LabelFrom([t], server, kind, name, n, k) ==
            [if InGroup(t, server, kind) then t.(title := LabelAt(name, n, k)) else t]
  {
    assert [t][1..] == [];
  }

  lemma MatchingSnoc(tabs: seq<Tab>, t: Tab, server: string, kind: string)
    ensures Matching(tabs + [t], server, kind) ==
            Matching(tabs, server, kind) + if InGroup(t, server, kind) then [|tabs|] else []
  {
    assert (tabs + [t])[..|tabs|] == tabs;
  }

  lemma LabelledLast(tabs: seq<Tab>, t: Tab, m: seq<nat>, name: string, n: nat, r: seq<Tab>, x: Tab)
    requires Labelled(tabs + [t], m + [|tabs|], name, n, r + [x]) && |r| == |tabs|
    requires forall j :: 0 <= j < |m| ==> m[j] < |tabs|
    ensures Labelled(tabs, m, name, n, r) && x == t.(title := LabelAt(name, n, |m| + 1))
  {
    var longer := m + [|tabs|];
    assert forall j :: 0 <= j < |m| ==> longer[j] == m[j];
    assert longer[|m|] == |tabs|;
    forall p | 0 <= p < |tabs| && p !in m
      ensures r[p] == tabs[p]
    {
      assert p !in longer;
      assert (r + [x])[p] == (tabs + [t])[p];
    }
  }

  lemma LabelledOther(tabs: seq<Tab>, t: Tab, m: seq<nat>, name: string, n: nat, r: seq<Tab>, x: Tab)
    requires Labelled(tabs + [t], m, name, n, r + [x]) && |r| == |tabs|
    requires forall j :: 0 <= j < |m| ==> m[j] < |tabs|
    ensures Labelled(tabs, m, name, n, r) && x == t
  {
    assert (r + [x])[|tabs|] == (tabs + [t])[|tabs|];
    forall p | 0 <= p < |tabs| && p !in m
      ensures r[p] == tabs[p]
    {
      assert (r + [x])[p] == (tabs + [t])[p];
    }
  }

  lemma LabelledStep(tabs: seq<Tab>, t: Tab, server: string, kind: string, name: string, n: nat, r: seq<Tab>, x: Tab)
    requires Labelled(tabs + [t], Matching(tabs + [t], server, kind), name, n, r + [x]) && |r| == |tabs|
    ensures Labelled(tabs, Matching(tabs, server, kind), name, n, r)
    ensures [x] == LabelFrom([t], server, kind, name, n, 1 + |Group(tabs, server, kind)|)
  {
    MatchingSnoc(tabs, t, server, kind);
    var m := Matching(tabs, server, kind);
    LabelOne(t, server, kind, name, n, 1 + |m|);
    if InGroup(t, server, kind) {
      LabelledLast(tabs, t, m, name, n, r, x);
    } else {
      assert m + [] == m;
      LabelledOther(tabs, t, m, name, n, r, x);
    }
  }

  /** The loop over the matching tabs does what relabelling should. */
  lemma {:induction false} LabelledIs(tabs: seq<Tab>, server: string, kind: string, name: string, n: nat, r: seq<Tab>)
    requires Labelled(tabs, Matching(tabs, server, kind), name, n, r)
    ensures r == LabelFrom(tabs, server, kind, name, n, 1)
    decreases |tabs|
  {
    if tabs != [] {
      var k := |tabs| - 1;
      assert tabs == tabs[..k] + [tabs[k]] && r == r[..k] + [r[k]];
      LabelledStep(tabs[..k], tabs[k], server, kind, name, n, r[..k], r[k]);
      LabelledIs(tabs[..k], server, kind, name, n, r[..k]);
      LabelFromAppend(tabs[..k], [tabs[k]], server, kind, name, n, 1);
    }
  }

  /** The loop: the tabs at the given places, all different, are numbered. */
  method NumberTabs(tabs: seq<Tab>, matching: seq<nat>, name: string) returns (r: seq<Tab>)
    requires forall j :: 0 <= j < |matching| ==> matching[j] < |tabs|
    requires forall j, k :: 0 <= j < k < |matching| ==> matching[j] < matching[k]
    requires |matching| != 1
    ensures Labelled(tabs, matching, name, |matching|, r)
  {
    r := tabs;
    for i := 0 to |matching|
      invariant |r| == |tabs|
      invariant forall j :: 0 <= j < i ==> r[matching[j]] == tabs[matching[j]].(title := Numbered(name, j + 1))
      invariant forall j :: i <= j < |matching| ==> r[matching[j]] == tabs[matching[j]]
      invariant forall p :: 0 <= p < |tabs| && p !in matching ==> r[p] == tabs[p]
    {
      r := r[matching[i] := r[matching[i]].(title := Numbered(name, i + 1))];
    }
  }

  // ---- The composable's state ----

  class TerminalTabs {
    var tabs: seq<Tab>
    var activeTabId: Option<string>
    var limitError: Option<string>
    var serial: nat

    ghost function Value(): State
      reads this
    {
      State(tabs, activeTabId, limitError, serial)
    }

    constructor ()
      ensures Value() == START
    {
      tabs, activeTabId, limitError, serial := [], None, None, 0;
    }

    /** Only titles of that group change: a single tab gets the bare name, more get it numbered in
        their order. */
    method RelabelGroup(serverId: string, kind: string, serverName: string)
      modifies this`tabs
      ensures tabs == Relabel(old(tabs), serverId, kind, serverName)
      ensures |tabs| == |old(tabs)|
      ensures forall p :: 0 <= p < |tabs| ==> tabs[p].(title := "") == old(tabs)[p].(title := "")
      ensures forall p :: 0 <= p < |tabs| && !InGroup(old(tabs)[p], serverId, kind) ==> tabs[p] == old(tabs)[p]
      ensures var n := |Group(old(tabs), serverId, kind)|;
              GroupLabels(tabs, serverId, kind) == Expected(serverName, n)
    {
      ghost var was := tabs;
      var matching := Matching(tabs, serverId, kind);
      if |matching| == 1 {
        tabs := tabs[matching[0] := tabs[matching[0]].(title := serverName)];
      } else {
        tabs := NumberTabs(tabs, matching, serverName);
      }
      LabelledIs(was, serverId, kind, serverName, |matching|, tabs);
      LabelFromGroup(was, serverId, kind, serverName, |matching|, 1);
      LabelFromKeeps(was, serverId, kind, serverName, |matching|, 1);
    }

    method OpenTab(server: string, kind: string)
      modifies this
      ensures Value() == Opened(old(Value()), server, kind)
    {
      if |tabs| >= MAX_TABS {
        limitError := Some(LIMIT_MESSAGE);
        return;
      }
      limitError := None;
      serial := serial + 1;
      var id := TabId(server, kind, serial);
      tabs := tabs + [Tab(id, server, kind, server)];
      RelabelGroup(server, kind, server);
      activeTabId := Some(id);
    }

    method CloseTab(id: string)
      modifies this
      ensures Value() == Closed(old(Value()), id)
    {
      var at := IndexOf(tabs, id);
      var closing := if at.Some? then Some(tabs[at.value]) else None;
      tabs := Without(tabs, id);
      limitError := None;
      if closing.Some? {
        RelabelGroup(closing.value.serverId, closing.value.kind, StripNumber(closing.value.title));
      }
      if activeTabId == Some(id) {
        activeTabId := LastId(tabs);
      }
    }

    method MoveTab(fromId: string, toId: string)
      modifies this`tabs
      ensures Value() == Moved(old(Value()), fromId, toId)
    {
      if fromId == toId {
        return;
      }
      var from, to := IndexOf(tabs, fromId), IndexOf(tabs, toId);
      if from.None? || to.None? {
        return;
      }
      var item := tabs[from.value];
      tabs := tabs[..from.value] + tabs[from.value + 1..];
      tabs := tabs[..to.value] + [item] + tabs[to.value..];
    }

    method ResetTabs()
      modifies this`tabs, this`activeTabId, this`limitError
      ensures Value() == Apply(old(Value()), Reset)
    {
      tabs, activeTabId, limitError := [], None, None;
    }

    method SelectTab(id: string)
      modifies this`activeTabId
      ensures Value() == Apply(old(Value()), Select(id))
    {
      activeTabId := Some(id);
    }
  }
}
