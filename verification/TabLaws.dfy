/** What the operations of the tab controller keep: identifiers stay distinct and
    bounded, rearrangements lose nothing, and the focus calls of each operation
    hand the focus over within the Space. */
module TabLaws {
  import opened Identifiers
  import opened SplitTrees
  import opened PaneModel
  import opened TabModel
  import opened TabControllers

  // ---------------------------------------------------------------------------
  // Rearrangements

  ghost predicate SameTabs(a: seq<Tab>, b: seq<Tab>) {
    (forall tab :: tab in a ==> tab in b) && (forall tab :: tab in b ==> tab in a)
  }

  lemma TabById(tabs: seq<Tab>, tab: Tab)
    requires Distinct(Ids(tabs)) && tab in tabs
    ensures tab.id in Ids(tabs) && tabs[IndexOfTab(tabs, tab.id).value] == tab
  {
    hide IndexOfTab;
    var i :| 0 <= i < |tabs| && tabs[i] == tab;
    var ids := Ids(tabs);
    assert ids[i] == tab.id;
    assert ids[IndexOfTab(tabs, tab.id).value] == tab.id;
    SameIndex(ids, i, IndexOfTab(tabs, tab.id).value);
    hide Ids;
  }

  lemma RearrangedHosts(a: seq<Tab>, b: seq<Tab>)
    requires SameTabs(a, b) && DisjointHosts(a) && Distinct(Ids(b))
    ensures HostsOf(b) == HostsOf(a) && DisjointHosts(b)
  {
    forall h ensures h in HostsOf(b) <==> h in HostsOf(a) {
      if h in HostsOf(a) {
        var i :| 0 <= i < |a| && h in a[i].panes.hosts.Values;
        assert a[i] in b;
      }
      if h in HostsOf(b) {
        var i :| 0 <= i < |b| && h in b[i].panes.hosts.Values;
        assert b[i] in a;
      }
    }
    forall i, j | 0 <= i < j < |b| ensures b[i].panes.hosts.Values !! b[j].panes.hosts.Values {
      assert b[i] in a && b[j] in a;
      assert Ids(b)[i] != Ids(b)[j];
    }
  }

  lemma RearrangedActive(t: Tabs, t': Tabs)
    requires SameTabs(t.tabs, t'.tabs) && Distinct(Ids(t.tabs)) && Distinct(Ids(t'.tabs)) && t'.active == t.active
    ensures ActiveTab(t') == ActiveTab(t)
  {
    if ActiveTab(t).Some? { TabById(t'.tabs, ActiveTab(t).value); }
    if ActiveTab(t').Some? { TabById(t.tabs, ActiveTab(t').value); }
  }

  /// A rearrangement of the tabs keeps identifiers, hosts, the active tab and focus.
  lemma RearrangedLaw(t: Tabs, t': Tabs, holders: set<HostId>)
    requires TabsOk(t) && FocusAgrees(t, holders) && Distinct(Ids(t'.tabs)) && SameTabs(t.tabs, t'.tabs)
    requires t'.active == t.active && t'.next == t.next && t'.focusEnabled == t.focusEnabled
    ensures TabsOk(t') && HandedOver(t, holders, t', holders) && DisjointHosts(t'.tabs)
            && HostsOf(t'.tabs) == HostsOf(t.tabs)
    ensures ActiveTab(t') == ActiveTab(t)
  {
    RearrangedHosts(t.tabs, t'.tabs);
    RearrangedActive(t, t');
    hide HostsOf;
    hide DisjointHosts;
    hide ActiveTab;
    forall i | 0 <= i < |t'.tabs| ensures 0 <= t'.tabs[i].id < t.next {
      assert t'.tabs[i] in t.tabs;
    }
  }

  /// A projected reorder succeeds exactly when the list names every tab once, and
  /// then the same tabs stand in the order of the list.
  lemma ReorderLaw(t: Tabs, ids: seq<int>)
    requires Distinct(Ids(t.tabs))
    ensures Reorder(t, ids).1 <==> Distinct(ids) && Elements(ids) == Elements(Ids(t.tabs))
    ensures Reorder(t, ids).1 ==> Ids(Reorder(t, ids).0.tabs) == ids && SameTabs(t.tabs, Reorder(t, ids).0.tabs)
    ensures !Reorder(t, ids).1 ==> Reorder(t, ids).0 == t
  {
    ReorderAccepts(t, ids);
    if Reorder(t, ids).1 {
      var tabs := Reordered(t.tabs, ids);
      assert Ids(tabs) == ids;
      forall tab | tab in t.tabs ensures tab in tabs {
        TabById(t.tabs, tab);
        var k :| 0 <= k < |ids| && ids[k] == tab.id;
        assert tabs[k] == tab;
      }
    }
  }

  lemma ReorderAccepts(t: Tabs, ids: seq<int>)
    requires Distinct(Ids(t.tabs))
    ensures SameIds(t.tabs, ids) <==> Distinct(ids) && Elements(ids) == Elements(Ids(t.tabs))
  {
    DistinctCount(Ids(t.tabs));
    InElements(ids);
    InElements(Ids(t.tabs));
    if Distinct(ids) && Elements(ids) == Elements(Ids(t.tabs)) {
      DistinctCount(ids);
      forall i | 0 <= i < |t.tabs| ensures t.tabs[i].id in ids {
        assert Ids(t.tabs)[i] in Elements(ids);
      }
    }
    if SameIds(t.tabs, ids) {
      forall x | x in Ids(t.tabs) ensures x in ids {
        var i :| 0 <= i < |t.tabs| && t.tabs[i].id == x;
      }
      assert Elements(ids) == Elements(Ids(t.tabs));
    }
  }

  /// Where the active tab goes, and what comes back in its place.
  lemma Moved(t: Tabs, direction: int, i: nat, j: nat)
    requires -|t.tabs| <= direction && |t.tabs| > 1 && IndexOfTab(t.tabs, t.active) == Some(i) && i < |t.tabs|
    requires j == (i + direction + |t.tabs|) % |t.tabs|
    ensures j < |t.tabs| && MoveTab(t, direction) == t.(tabs := t.tabs[i := t.tabs[j]][j := t.tabs[i]])
  {
    hide IndexOfTab;
  }

  lemma Unmoved(t: Tabs, direction: int)
    requires -|t.tabs| <= direction && (t.active !in Ids(t.tabs) || |t.tabs| <= 1)
    ensures MoveTab(t, direction) == t
  {}

  /// Moving a tab swaps it with another: nothing is lost or duplicated.
  lemma MoveLaw(t: Tabs, direction: int)
    requires Distinct(Ids(t.tabs)) && -|t.tabs| <= direction
    ensures var t' := MoveTab(t, direction);
            && Distinct(Ids(t'.tabs)) && SameTabs(t.tabs, t'.tabs) && |t'.tabs| == |t.tabs|
            && t' == t.(tabs := t'.tabs)
  {
    if t.active in Ids(t.tabs) && |t.tabs| > 1 {
      var i := IndexOfTab(t.tabs, t.active).value;
      hide IndexOfTab;
      Moved(t, direction, i, (i + direction + |t.tabs|) % |t.tabs|);
      hide MoveTab;
      SwappedTabs(t.tabs, MoveTab(t, direction).tabs, i, (i + direction + |t.tabs|) % |t.tabs|);
    }
  }

  /// Moving a tab and moving it back restores the order.
  lemma MoveBack(t: Tabs, direction: int)
    requires Distinct(Ids(t.tabs)) && -|t.tabs| <= direction <= |t.tabs|
    ensures MoveTab(MoveTab(t, direction), -direction) == t
  {
    hide MoveTab;
    hide IndexOfTab;
    if t.active in Ids(t.tabs) && |t.tabs| > 1 {
      MovedBack(t, direction, IndexOfTab(t.tabs, t.active).value);
    } else {
      Unmoved(t, direction);
      Unmoved(t, -direction);
    }
  }

  lemma MovedBack(t: Tabs, direction: int, i: nat)
    requires Distinct(Ids(t.tabs)) && -|t.tabs| <= direction <= |t.tabs|
    requires |t.tabs| > 1 && i < |t.tabs| && IndexOfTab(t.tabs, t.active) == Some(i)
    ensures MoveTab(MoveTab(t, direction), -direction) == t
  {
    hide MoveTab;
    hide IndexOfTab;
    hide SameTabs;
    hide Ids;
    hide Distinct;
    var n := |t.tabs|;
    var j := (i + direction + n) % n;
    MoveLaw(t, direction);
    Moved(t, direction, i, j);
    var t' := MoveTab(t, direction);
    IndexIsUnique(t'.tabs, j);
    BackAgain(i, direction, n);
    Moved(t', -direction, j, i);
    SwapTwice(t.tabs, i, j);
    calc {
      MoveTab(t', -direction);
      t'.(tabs := t'.tabs[j := t'.tabs[i]][i := t'.tabs[j]]);
      t'.(tabs := t.tabs);
      t;
    }
  }

  lemma SwapTwice<T>(s: seq<T>, i: nat, j: nat)
    requires i < |s| && j < |s|
    ensures var r := s[i := s[j]][j := s[i]]; r[j := r[i]][i := r[j]] == s
  {}

  lemma ModShift(x: int, n: nat)
    requires 0 < n && 0 <= x < 3 * n
    ensures x % n == if x < n then x else if x < 2 * n then x - n else x - 2 * n
  {}

  lemma BackAgain(i: nat, direction: int, n: nat)
    requires i < n && -(n as int) <= direction <= n
    ensures ((i + direction + n) % n + (-direction) + n) % n == i
  {
    var x := i + direction + n;
    var j := x % n;
    ModShift(x, n);
    ModShift(j + (-direction) + n, n);
  }

  lemma IndexIsUnique(tabs: seq<Tab>, j: nat)
    requires Distinct(Ids(tabs)) && j < |tabs|
    ensures tabs[j].id in Ids(tabs) && IndexOfTab(tabs, tabs[j].id) == Some(j)
  {
    hide IndexOfTab;
    hide Ids;
    hide Distinct;
    var ids := Ids(tabs);
    assert ids[j] == tabs[j].id;
    var k := IndexOfTab(tabs, tabs[j].id).value;
    assert ids[k] == tabs[k].id;
    SameIndex(ids, j, k);
  }

  lemma SwappedTabs(a: seq<Tab>, b: seq<Tab>, i: nat, j: nat)
    requires Distinct(Ids(a)) && i < |a| && j < |a| && b == a[i := a[j]][j := a[i]]
    ensures Distinct(Ids(b)) && SameTabs(a, b)
  {
    assert Ids(b) == Ids(a)[i := Ids(a)[j]][j := Ids(a)[i]];
    forall tab | tab in a ensures tab in b {
      var k :| 0 <= k < |a| && a[k] == tab;
      assert b[if k == i then j else if k == j then i else k] == tab;
    }
  }

  lemma Wraps(i: nat, n: nat)
    requires i < n
    ensures (i + 1) % n == if i + 1 == n then 0 else i + 1
  {}

  /// The tab after, and the tab before, position i.
  lemma Neighbours(t: Tabs, i: nat)
    requires i < |t.tabs| && IndexOfTab(t.tabs, t.active) == Some(i) && |t.tabs| > 1
    ensures NextTab(t) == t.(active := t.tabs[if i + 1 == |t.tabs| then 0 else i + 1].id)
    ensures PrevTab(t) == t.(active := t.tabs[if i == 0 then |t.tabs| - 1 else i - 1].id)
    ensures NextTab(t).active in Ids(t.tabs) && PrevTab(t).active in Ids(t.tabs)
  {
    hide IndexOfTab;
    var n := |t.tabs|;
    Wraps(i, n);
    var j := if i + 1 == n then 0 else i + 1;
    assert Ids(t.tabs)[j] == t.tabs[j].id;
    var k := if i == 0 then n - 1 else i - 1;
    assert Ids(t.tabs)[k] == t.tabs[k].id;
    hide Ids;
  }

  /// The previous tab of the next tab is the tab one was on.
  lemma NextThenPrevious(t: Tabs)
    requires Distinct(Ids(t.tabs))
    ensures PrevTab(NextTab(t)) == t && NextTab(PrevTab(t)) == t
  {
    hide IndexOfTab;
    hide Ids;
    hide Distinct;
    if t.active in Ids(t.tabs) && |t.tabs| > 1 {
      NextUndone(t, IndexOfTab(t.tabs, t.active).value);
    } else {
      NoNeighbours(t);
    }
  }

  lemma NoNeighbours(t: Tabs)
    requires t.active !in Ids(t.tabs) || |t.tabs| <= 1
    ensures NextTab(t) == t && PrevTab(t) == t
  {
    hide IndexOfTab;
    hide Ids;
  }

  lemma NextUndone(t: Tabs, i: nat)
    requires Distinct(Ids(t.tabs)) && i < |t.tabs| && IndexOfTab(t.tabs, t.active) == Some(i) && |t.tabs| > 1
    ensures PrevTab(NextTab(t)) == t && NextTab(PrevTab(t)) == t
  {
    var n := |t.tabs|;
    var up, down := if i + 1 == n then 0 else i + 1, if i == 0 then n - 1 else i - 1;
    hide NextTab;
    hide PrevTab;
    hide Ids;
    hide IndexOfTab;
    hide Distinct;
    Neighbours(t, i);
    IndexIsUnique(t.tabs, up);
    IndexIsUnique(t.tabs, down);
    Neighbours(NextTab(t), up);
    Neighbours(PrevTab(t), down);
  }

  // ---------------------------------------------------------------------------
  // One operation on one Space's tabs, with the focus calls it makes

  datatype TabOp =
    | OpAdd(created: Option<Panes>, name: string)
    | OpAddProjected
    | OpActivate(id: int)
    | OpClose(id: int)
    | OpNext
    | OpPrevious
    | OpMove(direction: int)
    | OpReorder(ids: seq<int>)

  ghost predicate Applicable(t: Tabs, op: TabOp) {
    op.OpMove? ==> -|t.tabs| <= op.direction
  }

  ghost function TabResult(t: Tabs, op: TabOp): Tabs
    requires Applicable(t, op)
  {
    match op
    case OpAdd(created, name) => AddTab(t, created, name).0
    case OpAddProjected => AddProjected(t).0
    case OpActivate(id) => Activate(t, id).0
    case OpClose(id) => CloseTab(t, id).0
    case OpNext => NextTab(t)
    case OpPrevious => PrevTab(t)
    case OpMove(direction) => MoveTab(t, direction)
    case OpReorder(ids) => Reorder(t, ids).0
  }

  /// The hosts holding focus after the calls the operation makes.
  ghost function TabFocus(t: Tabs, holders: set<HostId>, op: TabOp): set<HostId>
    requires Applicable(t, op)
  {
    match op
    case OpAdd(created, name) =>
      var (t', id) := AddTab(t, created, name);
      if id < 0 then holders else AfterActivate(t'.(active := t.active), holders, id)
    case OpClose(id) =>
      var (t', ok) := CloseTab(t, id);
      if !ok then holders
      else AfterActivate(t, holders, t'.active) - t.tabs[IndexOfTab(t.tabs, id).value].panes.hosts.Values
    case OpActivate(id) => AfterActivate(t, holders, id)
    case OpNext => AfterActivate(t, holders, NextTab(t).active)
    case OpPrevious => AfterActivate(t, holders, PrevTab(t).active)
    case _ => holders
  }

  /// The hosts an operation brings in.
  ghost function NewHosts(op: TabOp): set<HostId> {
    if op.OpAdd? && op.created.Some? then op.created.value.hosts.Values else {}
  }

  /// What every operation keeps.
  ghost predicate TabKept(t: Tabs, holders: set<HostId>, t': Tabs, holders': set<HostId>, added: set<HostId>) {
    && TabsOk(t') && DisjointHosts(t'.tabs) && t'.focusEnabled == t.focusEnabled
    && HandedOver(t, holders, t', holders') && HostsOf(t'.tabs) <= HostsOf(t.tabs) + added
  }

  lemma TabOpKeeps(t: Tabs, holders: set<HostId>, op: TabOp)
    requires TabsOk(t) && FocusAgrees(t, holders) && Applicable(t, op) && NewHosts(op) !! HostsOf(t.tabs)
    ensures TabKept(t, holders, TabResult(t, op), TabFocus(t, holders, op), NewHosts(op))
  {
    hide TabKept;
    match op
    case OpAdd(created, name) => AddKeeps(t, holders, created, name);
    case OpAddProjected => AddProjectedKeeps(t, holders);
    case OpActivate(id) => ActivateKeeps(t, holders, id);
    case OpClose(id) => CloseKeeps(t, holders, id);
    case OpNext => NeighbourKeeps(t, holders);
    case OpPrevious => NeighbourKeeps(t, holders);
    case OpMove(direction) => MoveKeeps(t, holders, direction);
    case OpReorder(ids) => ReorderKeeps(t, holders, ids);
  }

  lemma IdleKeeps(t: Tabs, holders: set<HostId>)
    requires TabsOk(t) && FocusAgrees(t, holders)
    ensures TabKept(t, holders, t, holders, {})
  {
    CurrentIsOwn(t);
    hide HostsOf;
    hide DisjointHosts;
    hide CurrentHost;
  }

  lemma ActivateKeeps(t: Tabs, holders: set<HostId>, id: int)
    requires TabsOk(t) && FocusAgrees(t, holders)
    ensures TabKept(t, holders, Activate(t, id).0, AfterActivate(t, holders, id), {})
  {
    if id in Ids(t.tabs) {
      ActivateHandsOver(t, holders, id);
      var i := IndexOfTab(t.tabs, id).value;
      hide HostsOf;
      hide HandedOver;
      hide DisjointHosts;
    } else {
      IdleKeeps(t, holders);
    }
  }

  lemma NeighbourKeeps(t: Tabs, holders: set<HostId>)
    requires TabsOk(t) && FocusAgrees(t, holders)
    ensures TabKept(t, holders, NextTab(t), AfterActivate(t, holders, NextTab(t).active), {})
    ensures TabKept(t, holders, PrevTab(t), AfterActivate(t, holders, PrevTab(t).active), {})
  {
    hide TabKept;
    IdleKeeps(t, holders);
    hide IndexOfTab;
    if t.active in Ids(t.tabs) && |t.tabs| > 1 {
      var i := IndexOfTab(t.tabs, t.active).value;
      Neighbours(t, i);
      hide NextTab;
      hide PrevTab;
      ActivateKeeps(t, holders, NextTab(t).active);
      ActivateKeeps(t, holders, PrevTab(t).active);
    }
  }

  lemma MoveKeeps(t: Tabs, holders: set<HostId>, direction: int)
    requires TabsOk(t) && FocusAgrees(t, holders) && -|t.tabs| <= direction
    ensures TabKept(t, holders, MoveTab(t, direction), holders, {})
  {
    MoveLaw(t, direction);
    var t' := MoveTab(t, direction);
    hide MoveTab;
    RearrangedLaw(t, t', holders);
    hide HostsOf;
    hide HandedOver;
    hide DisjointHosts;
  }

  lemma ReorderKeeps(t: Tabs, holders: set<HostId>, ids: seq<int>)
    requires TabsOk(t) && FocusAgrees(t, holders)
    ensures TabKept(t, holders, Reorder(t, ids).0, holders, {})
  {
    hide HostsOf;
    hide HandedOver;
    hide DisjointHosts;
    if Reorder(t, ids).1 {
      ReorderLaw(t, ids);
      RearrangedLaw(t, Reorder(t, ids).0, holders);
    } else {
      IdleKeeps(t, holders);
    }
  }

  lemma AppendOk(t: Tabs, tab: Tab)
    requires TabsOk(t) && DisjointHosts(t.tabs) && tab.id == t.next < LIMIT && tab.panes.hosts.Values !! HostsOf(t.tabs)
    ensures var t' := t.(tabs := t.tabs + [tab], next := t.next + 1);
            && TabsOk(t') && TabsOk(t'.(active := tab.id)) && DisjointHosts(t'.tabs)
            && HostsOf(t'.tabs) == HostsOf(t.tabs) + tab.panes.hosts.Values
            && tab.id !in Ids(t.tabs)
  {
    HostsOfAppend(t.tabs, tab);
    assert Ids(t.tabs + [tab]) == Ids(t.tabs) + [tab.id];
    assert forall i :: 0 <= i < |t.tabs| ==> t.tabs[i].panes.hosts.Values <= HostsOf(t.tabs);
    hide HostsOf;
  }

  lemma AddKeeps(t: Tabs, holders: set<HostId>, created: Option<Panes>, name: string)
    requires TabsOk(t) && FocusAgrees(t, holders)
    requires created.Some? ==> created.value.hosts.Values !! HostsOf(t.tabs)
    ensures TabKept(t, holders, AddTab(t, created, name).0, TabFocus(t, holders, OpAdd(created, name)),
                    NewHosts(OpAdd(created, name)))
  {
    if Allocate(t.next).None? || created.None? {
      IdleKeeps(t, holders);
      hide HostsOf;
      hide CurrentHost;
      hide DisjointHosts;
      SameHolder(t, t.(next := t.next + 1));
    } else {
      var tab := Tab(t.next, name, false, created.value, true);
      AppendOk(t, tab);
      var t1 := t.(next := t.next + 1);
      SameHolder(t, t1);
      AppendHandsOver(t1, holders, tab);
      hide HostsOf;
      hide CurrentHost;
      hide DisjointHosts;
    }
  }

  lemma SameHolder(t: Tabs, t': Tabs)
    requires t'.tabs == t.tabs && t'.active == t.active && t'.focusEnabled == t.focusEnabled
    ensures Holder(t') == Holder(t)
  {}

  lemma AddProjectedKeeps(t: Tabs, holders: set<HostId>)
    requires TabsOk(t) && FocusAgrees(t, holders)
    ensures TabKept(t, holders, AddProjected(t).0, holders, {})
  {
    if Allocate(t.next).None? {
      IdleKeeps(t, holders);
    } else {
      var tab := Tab(t.next, "tab", false, NO_PANES, false);
      AppendOk(t, tab);
      AppendKeepsActive(t, tab);
      CurrentIsOwn(t);
      SameHolder(t.(tabs := t.tabs + [tab]), AddProjected(t).0);
      ProjectedHolder(t, tab);
      hide TabsOk;
      hide HostsOf;
      hide Holder;
      hide DisjointHosts;
    }
  }

  lemma ProjectedHolder(t: Tabs, tab: Tab)
    requires CurrentHost(t.(tabs := t.tabs + [tab])) == CurrentHost(t)
    ensures Holder(t.(tabs := t.tabs + [tab])) == Holder(t)
  {
    hide CurrentHost;
  }

  lemma CloseKeeps(t: Tabs, holders: set<HostId>, id: int)
    requires TabsOk(t) && FocusAgrees(t, holders)
    ensures TabKept(t, holders, CloseTab(t, id).0, TabFocus(t, holders, OpClose(id)), {})
  {
    if !CloseTab(t, id).1 {
      IdleKeeps(t, holders);
    } else {
      var i := IndexOfTab(t.tabs, id).value;
      CloseHandsOver(t, holders, i);
      HostsOfWithout(t.tabs, i);
      CloseOk(t, i);
      hide HostsOf;
      hide CurrentHost;
      hide DisjointHosts;
      hide HandedOver;
      hide TabsOk;
    }
  }

  lemma FoundAt(t: Tabs, i: nat)
    requires TabsOk(t) && i < |t.tabs|
    ensures IndexOfTab(t.tabs, t.tabs[i].id) == Some(i)
  {
    assert Ids(t.tabs)[i] == t.tabs[i].id;
    var j := IndexOfTab(t.tabs, t.tabs[i].id).value;
    hide IndexOfTab;
    assert Ids(t.tabs)[j] == Ids(t.tabs)[i];
  }

  /// Closing a tab leaves the others in order.
  lemma ClosedLeavesOrder(t: Tabs, i: nat)
    requires TabsOk(t) && i < |t.tabs| && |t.tabs| > 1
    ensures var (t', ok) := CloseTab(t, t.tabs[i].id);
            && ok && |t'.tabs| == |t.tabs| - 1
            && (forall k :: 0 <= k < i ==> t'.tabs[k] == t.tabs[k])
            && (forall k :: i <= k < |t'.tabs| ==> t'.tabs[k] == t.tabs[k + 1])
  {
    FoundAt(t, i);
    hide IndexOfTab;
    hide TabsOk;
  }

  lemma IdIn(tabs: seq<Tab>, i: nat)
    requires i < |tabs|
    ensures tabs[i].id in Ids(tabs)
  {
    assert Ids(tabs)[i] == tabs[i].id;
  }

  lemma StepForward(t: Tabs, i: nat)
    requires TabsOk(t) && i < |t.tabs| && |t.tabs| > 1 && t.tabs[i].id == t.active
    ensures NextTab(t).active == t.tabs[if i + 1 == |t.tabs| then 0 else i + 1].id
  {
    FoundAt(t, i);
    NextIs(i, |t.tabs|);
    IdIn(t.tabs, if i + 1 == |t.tabs| then 0 else i + 1);
    hide IndexOfTab;
    hide TabsOk;
    hide Ids;
  }

  lemma StepBack(t: Tabs, i: nat)
    requires TabsOk(t) && i < |t.tabs| && |t.tabs| > 1 && t.tabs[i].id == t.active
    ensures PrevTab(t).active == t.tabs[if i == 0 then |t.tabs| - 1 else i - 1].id
  {
    FoundAt(t, i);
    var k := if i == 0 then |t.tabs| - 1 else i - 1;
    IdIn(t.tabs, k);
    hide IndexOfTab;
    hide TabsOk;
    hide Ids;
    assert Activate(t, t.tabs[k].id).0.active == t.tabs[k].id;
    hide Activate;
  }

  /// When the active tab is closed, the one that a step forward would have shown becomes
  /// active, or a step back if it was the last.
  lemma ClosedActivates(t: Tabs, i: nat)
    requires TabsOk(t) && i < |t.tabs| && |t.tabs| > 1
    ensures var t' := CloseTab(t, t.tabs[i].id).0;
            && (t.tabs[i].id != t.active ==> t'.active == t.active)
            && (t.tabs[i].id == t.active ==>
                  t'.active == if i + 1 < |t.tabs| then NextTab(t).active else PrevTab(t).active)
  {
    FoundAt(t, i);
    if t.tabs[i].id == t.active { if i + 1 < |t.tabs| { StepForward(t, i); } else { StepBack(t, i); } }
    hide IndexOfTab;
    hide TabsOk;
    hide NextTab;
    hide PrevTab;
    hide Ids;
  }

  lemma NextIs(i: nat, n: nat)
    requires i < n
    ensures (i + 1) % n == if i + 1 == n then 0 else i + 1
  {}

  lemma CloseOk(t: Tabs, i: nat)
    requires TabsOk(t) && DisjointHosts(t.tabs) && i < |t.tabs| && |t.tabs| > 1
             && IndexOfTab(t.tabs, t.tabs[i].id) == Some(i)
    ensures var t' := CloseTab(t, t.tabs[i].id).0;
            TabsOk(t') && DisjointHosts(t'.tabs) && t'.focusEnabled == t.focusEnabled
  {
    hide HostsOf;
    hide DisjointHosts;
    hide IndexOfTab;
    WithoutIds(t.tabs, i);
    var (t', ok) := CloseTab(t, t.tabs[i].id);
    forall k | 0 <= k < |t'.tabs| ensures 0 <= t'.tabs[k].id < t.next {
      assert t'.tabs[k] in t.tabs;
    }
  }

  lemma WithoutIds(tabs: seq<Tab>, i: nat)
    requires i < |tabs| && Distinct(Ids(tabs)) && DisjointHosts(tabs)
    ensures var rest := tabs[..i] + tabs[i + 1..];
            Distinct(Ids(rest)) && DisjointHosts(rest) && forall tab :: tab in rest ==> tab in tabs
  {
    var rest := tabs[..i] + tabs[i + 1..];
    assert forall k :: 0 <= k < |rest| ==> rest[k] == tabs[if k < i then k else k + 1];
    forall j, k | 0 <= j < k < |rest|
      ensures rest[j].panes.hosts.Values !! rest[k].panes.hosts.Values && Ids(rest)[j] != Ids(rest)[k]
    {
      assert Ids(tabs)[if j < i then j else j + 1] != Ids(tabs)[if k < i then k else k + 1];
    }
  }
}
