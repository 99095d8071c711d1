/** The tab controller: tabs updated in place, and the focus calls it makes on hosts. */
module TabControllers {
  import opened Identifiers
  import opened SplitTrees
  import opened PaneModel
  import opened TabModel
  import opened PaneManagers

  /// The hosts' own focus flags, kept in one place.
  class HostFocus {
    var holders: set<HostId>

    constructor ()
      ensures holders == {}
    {
      holders := {};
    }

    method Gained(hosts: set<HostId>)
      modifies this
      ensures holders == old(holders) + hosts
    {
      holders := holders + hosts;
    }

    method Lost(hosts: set<HostId>)
      modifies this
      ensures holders == old(holders) - hosts
    {
      holders := holders - hosts;
    }

    /// A host that is shut down no longer holds anything.
    method Destroyed(hosts: set<HostId>)
      modifies this
      ensures holders == old(holders) - hosts
    {
      holders := holders - hosts;
    }
  }

  /// No two tabs share an identifier, and all are below the counter.
  ghost predicate TabsOk(t: Tabs) {
    && Distinct(Ids(t.tabs)) && 0 <= t.next <= LIMIT && t.active < t.next
    && forall i :: 0 <= i < |t.tabs| ==> 0 <= t.tabs[i].id < t.next
  }

  ghost predicate DisjointHosts(tabs: seq<Tab>) {
    forall i, j :: 0 <= i < j < |tabs| ==> tabs[i].panes.hosts.Values !! tabs[j].panes.hosts.Values
  }

  /// Of this Space's hosts, exactly the one that should hold focus holds it.
  ghost predicate FocusAgrees(t: Tabs, holders: set<HostId>) {
    DisjointHosts(t.tabs) && holders * HostsOf(t.tabs) == Holder(t)
  }

  /// The focus hand-over law: this Space's hosts end with exactly its new holder
  /// and every other host is left alone.
  ghost predicate HandedOver(t: Tabs, holders: set<HostId>, t': Tabs, holders': set<HostId>) {
    holders' == holders - HostsOf(t.tabs) + Holder(t')
  }

  /// The calls an activation makes: lost to the old host, gained to the new one.
  ghost function AfterActivate(t: Tabs, holders: set<HostId>, id: int): set<HostId> {
    if id !in Ids(t.tabs) || id == t.active || !t.focusEnabled then holders
    else holders - CurrentHost(t) + CurrentHost(t.(active := id))
  }

  lemma CurrentIsOwn(t: Tabs)
    ensures CurrentHost(t) <= HostsOf(t.tabs)
  {
    if ActiveTab(t).Some? {
      var i := IndexOfTab(t.tabs, t.active).value;
      assert FocusedHost(t.tabs[i].panes) <= t.tabs[i].panes.hosts.Values;
    }
  }

  lemma ActivateHandsOver(t: Tabs, holders: set<HostId>, id: int)
    requires FocusAgrees(t, holders) && id in Ids(t.tabs)
    ensures HandedOver(t, holders, Activate(t, id).0, AfterActivate(t, holders, id))
  {
    CurrentIsOwn(t);
    CurrentIsOwn(t.(active := id));
    assert t.focusEnabled ==> holders - CurrentHost(t) == holders - HostsOf(t.tabs);
    hide HostsOf;
  }

  /// A tab appended and activated takes the focus from the tab active before.
  lemma AppendHandsOver(t: Tabs, holders: set<HostId>, tab: Tab)
    requires FocusAgrees(t, holders) && tab.id !in Ids(t.tabs) && tab.id != t.active
    ensures var t1 := t.(tabs := t.tabs + [tab]);
            tab.id in Ids(t1.tabs) &&
            HandedOver(t, holders, t1.(active := tab.id), AfterActivate(t1, holders, tab.id))
  {
    var t1 := t.(tabs := t.tabs + [tab]);
    assert Ids(t1.tabs) == Ids(t.tabs) + [tab.id];
    assert Ids(t1.tabs)[|t.tabs|] == tab.id;
    AppendKeepsActive(t, tab);
    CurrentIsOwn(t);
    hide HostsOf;
    hide CurrentHost;
    assert t.focusEnabled ==> holders - CurrentHost(t) == holders - HostsOf(t.tabs);
  }

  lemma AppendKeepsActive(t: Tabs, tab: Tab)
    requires tab.id != t.active
    ensures CurrentHost(t.(tabs := t.tabs + [tab])) == CurrentHost(t)
  {
    var tabs := t.tabs + [tab];
    assert Ids(tabs) == Ids(t.tabs) + [tab.id];
    assert t.active in Ids(tabs) <==> t.active in Ids(t.tabs);
    if t.active in Ids(t.tabs) {
      var i, j := IndexOfTab(t.tabs, t.active).value, IndexOfTab(tabs, t.active).value;
      assert tabs[i] == t.tabs[i];
      assert i == j;
    }
  }

  /// Closing hands the focus over first and then destroys the tab's own hosts.
  lemma CloseHandsOver(t: Tabs, holders: set<HostId>, i: nat)
    requires FocusAgrees(t, holders) && Distinct(Ids(t.tabs)) && i < |t.tabs| && |t.tabs| > 1
    requires IndexOfTab(t.tabs, t.tabs[i].id) == Some(i)
    ensures var (t', ok) := CloseTab(t, t.tabs[i].id);
            var held := AfterActivate(t, holders, t'.active) - t.tabs[i].panes.hosts.Values;
            HandedOver(t, holders, t', held)
  {
    var (t', ok) := CloseTab(t, t.tabs[i].id);
    var closing := t.tabs[i].panes.hosts.Values;
    CloseKeepsCurrent(t, i);
    HostsOfWithout(t.tabs, i);
    CurrentIsOwn(t);
    CurrentIsOwn(t');
    CurrentIsOwn(t.(active := t'.active));
    hide HostsOf;
    hide CurrentHost;
    hide DisjointHosts;
    hide CloseTab;
  }

  /// The tab active after a close is current in the remaining tabs as before.
  lemma CloseKeepsCurrent(t: Tabs, i: nat)
    requires Distinct(Ids(t.tabs)) && i < |t.tabs| && |t.tabs| > 1
    requires IndexOfTab(t.tabs, t.tabs[i].id) == Some(i)
    ensures var t' := CloseTab(t, t.tabs[i].id).0;
            && t'.focusEnabled == t.focusEnabled && t'.tabs == t.tabs[..i] + t.tabs[i + 1..]
            && CurrentHost(t') == CurrentHost(t.(active := t'.active))
            && (t'.active in Ids(t.tabs) || t'.active == t.active)
  {
    var t' := CloseTab(t, t.tabs[i].id).0;
    WithoutTab(t.tabs, i, t'.active);
    var replacement := if i + 1 < |t.tabs| then i + 1 else i - 1;
    assert Ids(t.tabs)[replacement] == t.tabs[replacement].id;
    assert Ids(t.tabs)[replacement] != Ids(t.tabs)[i];
  }

  lemma WithoutTab(tabs: seq<Tab>, i: nat, id: int)
    requires Distinct(Ids(tabs)) && i < |tabs| && id != tabs[i].id
    ensures var rest := tabs[..i] + tabs[i + 1..];
            && (id in Ids(rest) <==> id in Ids(tabs))
            && (id in Ids(tabs) ==> rest[IndexOfTab(rest, id).value] == tabs[IndexOfTab(tabs, id).value])
  {
    var rest := tabs[..i] + tabs[i + 1..];
    assert Ids(rest) == Ids(tabs)[..i] + Ids(tabs)[i + 1..];
    DroppedAt(Ids(tabs), i);
    DroppedAt(tabs, i);
    hide Ids;
    hide IndexOfTab;
    if id in Ids(tabs) {
      DroppedStill(Ids(tabs), i, id);
      var tab := rest[IndexOfTab(rest, id).value];
      UniqueTab(tabs, IndexOfTab(tabs, id).value, tab);
    }
  }

  lemma UniqueTab(tabs: seq<Tab>, a: nat, tab: Tab)
    requires Distinct(Ids(tabs)) && a < |tabs| && tab in tabs && tab.id == tabs[a].id
    ensures tab == tabs[a]
  {
    var c :| 0 <= c < |tabs| && tabs[c] == tab;
    assert Ids(tabs)[c] == Ids(tabs)[a];
  }

  lemma HostsOfWithout(tabs: seq<Tab>, i: nat)
    requires i < |tabs| && DisjointHosts(tabs)
    ensures HostsOf(tabs[..i] + tabs[i + 1..]) == HostsOf(tabs) - tabs[i].panes.hosts.Values
    ensures tabs[i].panes.hosts.Values <= HostsOf(tabs)
  {
    var mine := tabs[i].panes.hosts.Values;
    OthersDisjoint(tabs, i);
    assert tabs == (tabs[..i] + [tabs[i]]) + tabs[i + 1..];
    HostsOfAppend(tabs[..i], tabs[i]);
    HostsOfConcat(tabs[..i] + [tabs[i]], tabs[i + 1..]);
    HostsOfConcat(tabs[..i], tabs[i + 1..]);
    hide HostsOf;
    hide DisjointHosts;
  }

  lemma OthersDisjoint(tabs: seq<Tab>, i: nat)
    requires i < |tabs| && DisjointHosts(tabs)
    ensures HostsOf(tabs[..i]) !! tabs[i].panes.hosts.Values && HostsOf(tabs[i + 1..]) !! tabs[i].panes.hosts.Values
  {}

  lemma HostsOfConcat(a: seq<Tab>, b: seq<Tab>)
    ensures HostsOf(a + b) == HostsOf(a) + HostsOf(b)
  {
    forall h ensures h in HostsOf(a + b) <==> h in HostsOf(a) || h in HostsOf(b) {
      if h in HostsOf(a) {
        var i :| 0 <= i < |a| && h in a[i].panes.hosts.Values;
        assert (a + b)[i] == a[i];
      }
      if h in HostsOf(b) {
        var i :| 0 <= i < |b| && h in b[i].panes.hosts.Values;
        assert (a + b)[|a| + i] == b[i];
      }
    }
  }

  class TabController {
    const focus: HostFocus
    var tabs: seq<Tab>
    var activeTabId: int
    var nextTabId: int
    var focusEnabled: bool

    function Value(): Tabs
      reads this
    {
      Tabs(tabs, activeTabId, nextTabId, focusEnabled)
    }

    constructor (focus: HostFocus)
      ensures this.focus == focus && Value() == NO_TABS
    {
      this.focus := focus;
      tabs, activeTabId, nextTabId, focusEnabled := [], -1, 0, true;
    }

    method FindTab(id: int) returns (r: Option<nat>)
      ensures r == IndexOfTab(tabs, id)
    {
      for i := 0 to |tabs|
        invariant forall k :: 0 <= k < i ==> tabs[k].id != id
      {
        if tabs[i].id == id {
          assert Ids(tabs)[i] == id;
          return Some(i);
        }
      }
      return None;
    }

    method ActivateTab(id: int) returns (ok: bool)
      modifies `activeTabId, focus
      ensures (Value(), ok) == Activate(old(Value()), id)
      ensures focus.holders == AfterActivate(old(Value()), old(focus.holders), id)
      ensures old(FocusAgrees(Value(), focus.holders)) && ok ==>
                HandedOver(old(Value()), old(focus.holders), Value(), focus.holders)
    {
      ghost var before, held := Value(), focus.holders;
      var current := FindTab(activeTabId);
      var target := FindTab(id);
      if FocusAgrees(before, held) && target.Some? { ActivateHandsOver(before, held, id); }
      if id == activeTabId && current.Some? {
        return true;
      }
      if target.None? {
        return false;
      }
      if focusEnabled && current.Some? {
        focus.Lost(FocusedHost(tabs[current.value].panes));
      }
      activeTabId := id;
      if focusEnabled {
        focus.Gained(FocusedHost(tabs[target.value].panes));
      }
      return true;
    }

    method EnableFocus(enabled: bool)
      modifies `focusEnabled, focus
      ensures Value() == SetFocusEnabled(old(Value()), enabled)
      ensures focus.holders == if enabled == old(focusEnabled) then old(focus.holders)
                               else if enabled then old(focus.holders) + CurrentHost(old(Value()))
                               else old(focus.holders) - CurrentHost(old(Value()))
      ensures old(FocusAgrees(Value(), focus.holders)) ==>
                HandedOver(old(Value()), old(focus.holders), Value(), focus.holders)
    {
      CurrentIsOwn(Value());
      if enabled == focusEnabled {
        return;
      }
      var active := FindTab(activeTabId);
      if active.Some? {
        if enabled {
          focus.Gained(FocusedHost(tabs[active.value].panes));
        } else {
          focus.Lost(FocusedHost(tabs[active.value].panes));
        }
      }
      focusEnabled := enabled;
    }

    /// Creates a host for a new tab, appends the tab and activates it.
    method AddTabWith(deps: Deps, launch: Launch, maker: HostMaker, name: string) returns (id: int)
      requires TabsOk(Value())
      modifies `tabs, `activeTabId, `nextTabId, focus
      ensures var (panes, ok) := PaneModel.Create(NO_PANES, deps, launch, maker);
              (Value(), id) == AddTab(old(Value()), if ok then Some(panes) else None, name)
      ensures id < 0 ==> focus.holders == old(focus.holders)
      ensures old(FocusAgrees(Value(), focus.holders)) && id >= 0 ==>
                HandedOver(old(Value()), old(focus.holders), Value(), focus.holders)
    {
      hide PaneModel.Create;
      ghost var before, held := Value(), focus.holders;
      if Allocate(nextTabId).None? {
        return -1;
      }
      id := nextTabId;
      nextTabId := nextTabId + 1;
      var manager := new PaneManager(deps);
      var ok := manager.Create(launch, maker);
      if !ok {
        return -1;
      }
      var tab := Tab(id, name, false, manager.View(), true);
      assert id !in Ids(tabs);
      tabs := tabs + [tab];
      assert Ids(tabs)[|tabs| - 1] == id;
      if FocusAgrees(before, held) { AppendHandsOver(before.(next := nextTabId), held, tab); }
      var _ := ActivateTab(id);
    }

    /// Reserves an identifier for an authoritative tab; no host, no activation.
    method AddProjectedTab() returns (id: int)
      modifies `tabs, `nextTabId
      ensures (Value(), id) == AddProjected(old(Value()))
    {
      if Allocate(nextTabId).None? {
        return -1;
      }
      id := nextTabId;
      nextTabId := nextTabId + 1;
      tabs := tabs + [Tab(id, "tab", false, NO_PANES, false)];
    }

    method Close(id: int) returns (ok: bool)
      modifies `tabs, `activeTabId, focus
      ensures (Value(), ok) == CloseTab(old(Value()), id)
      ensures !ok ==> focus.holders == old(focus.holders)
      ensures old(FocusAgrees(Value(), focus.holders) && Distinct(Ids(tabs))) && ok ==>
                HandedOver(old(Value()), old(focus.holders), Value(), focus.holders)
    {
      hide HostsOf;
      hide CurrentHost;
      hide DisjointHosts;
      ghost var before, held := Value(), focus.holders;
      if |tabs| <= 1 {
        return false;
      }
      var found := FindTab(id);
      if found.None? {
        return false;
      }
      var i := found.value;
      if FocusAgrees(before, held) && Distinct(Ids(tabs)) { CloseHandsOver(before, held, i); }
      if id == activeTabId {
        var replacement := if i + 1 < |tabs| then i + 1 else i - 1;
        assert Ids(tabs)[replacement] == tabs[replacement].id;
        var _ := ActivateTab(tabs[replacement].id);
      }
      focus.Destroyed(tabs[i].panes.hosts.Values);
      tabs := tabs[..i] + tabs[i + 1..];
      return true;
    }

    method Next()
      modifies `activeTabId, focus
      ensures Value() == NextTab(old(Value()))
      ensures old(FocusAgrees(Value(), focus.holders)) ==>
                HandedOver(old(Value()), old(focus.holders), Value(), focus.holders)
    {
      CurrentIsOwn(Value());
      if |tabs| <= 1 {
        return;
      }
      var active := FindTab(activeTabId);
      if active.Some? {
        assert Ids(tabs)[(active.value + 1) % |tabs|] == tabs[(active.value + 1) % |tabs|].id;
        var _ := ActivateTab(tabs[(active.value + 1) % |tabs|].id);
      }
    }

    method Previous()
      modifies `activeTabId, focus
      ensures Value() == PrevTab(old(Value()))
      ensures old(FocusAgrees(Value(), focus.holders)) ==>
                HandedOver(old(Value()), old(focus.holders), Value(), focus.holders)
    {
      CurrentIsOwn(Value());
      if |tabs| <= 1 {
        return;
      }
      var active := FindTab(activeTabId);
      if active.Some? {
        var previous := if active.value == 0 then |tabs| - 1 else active.value - 1;
        assert Ids(tabs)[previous] == tabs[previous].id;
        var _ := ActivateTab(tabs[previous].id);
      }
    }

    method Move(direction: int)
      requires -|tabs| <= direction
      modifies `tabs
      ensures Value() == MoveTab(old(Value()), direction)
    {
      hide IndexOfTab;
      hide Ids;
      var active := FindTab(activeTabId);
      if |tabs| > 1 && active.Some? {
        var i, target := active.value, (active.value + direction + |tabs|) % |tabs|;
        tabs := tabs[i := tabs[target]][target := tabs[i]];
      }
    }

    /// Collects the tabs in the order of ids.
    method Collect(ids: seq<int>) returns (ordered: seq<Tab>)
      requires forall i :: 0 <= i < |ids| ==> ids[i] in Ids(tabs)
      ensures ordered == Reordered(tabs, ids)
    {
      ordered := [];
      for i := 0 to |ids|
        invariant |ordered| == i && forall k :: 0 <= k < i ==> ordered[k] == tabs[IndexOfTab(tabs, ids[k]).value]
      {
        var found := FindTab(ids[i]);
        ordered := ordered + [tabs[found.value]];
      }
    }

    /// Puts the tabs in the given order if it names each of them exactly once.
    method ReorderProjected(ids: seq<int>) returns (ok: bool)
      modifies `tabs
      ensures (Value(), ok) == Reorder(old(Value()), ids)
    {
      if !SameIds(tabs, ids) {
        return false;
      }
      hide Reordered;
      tabs := Collect(ids);
      return true;
    }

    method SaveAll(cwd: int -> LeafId -> string) returns (saved: Option<seq<TabSnapshot>>)
      ensures saved == SaveTabs(tabs, cwd)
    {
      var snaps: seq<TabSnapshot> := [];
      for i := 0 to |tabs|
        invariant SaveTabs(tabs[..i], cwd) == Some(snaps)
      {
        assert tabs[..i + 1][..i] == tabs[..i];
        var snap := SaveTab(tabs[i], cwd(tabs[i].id));
        if snap.None? {
          SaveFails(tabs, i + 1, cwd);
          return None;
        }
        snaps := snaps + [snap.value];
      }
      assert tabs[..|tabs|] == tabs;
      return Some(snaps);
    }

    /// The identifiers are valid and differ; also the largest of them.
    static method CheckIds(ids: seq<int>) returns (ok: bool, top: int)
      ensures ok == UsableIds(ids)
      ensures ok ==> top == MaxOf(ids)
    {
      var seen: set<int> := {};
      top := -1;
      for i := 0 to |ids|
        invariant forall id :: id in seen <==> exists k :: 0 <= k < i && ids[k] == id
        invariant forall k :: 0 <= k < i ==> ValidIdentifier(ids[k])
        invariant forall j, k :: 0 <= j < k < i ==> ids[j] != ids[k]
        invariant top == MaxOf(ids[..i])
      {
        if !ValidIdentifier(ids[i]) || ids[i] in seen {
          return false, top;
        }
        seen := seen + {ids[i]};
        assert ids[..i + 1][..i] == ids[..i];
        top := Max(top, ids[i]);
      }
      assert ids[..|ids|] == ids;
      return true, top;
    }

    /// Restores each saved tab in a manager of its own; a failed one is shut
    /// down and, unless strict, skipped. None when strict and one failed.
    static method BuildCandidates(deps: Deps, snaps: seq<TabSnapshot>, factory: int -> LeafId -> HostMaker,
                                  strict: bool)
      returns (candidates: Option<seq<Tab>>)
      ensures candidates == if strict && |Survivors(deps, snaps, factory)| < |snaps| then None
                            else Some(Survivors(deps, snaps, factory))
    {
      hide RestoreLayout;
      var built: seq<Tab> := [];
      for i := 0 to |snaps|
        invariant built == Survivors(deps, snaps[..i], factory)
        invariant strict ==> |built| == i
      {
        assert snaps[..i + 1][..i] == snaps[..i];
        var manager := new PaneManager(deps);
        var ok := manager.RestoreSavedLayout(snaps[i].layout, factory(snaps[i].id));
        if ok {
          var name := if snaps[i].name == "" then "tab" else snaps[i].name;
          built := built + [Tab(snaps[i].id, name, snaps[i].nameUserSet, manager.View(), true)];
        } else {
          manager.ShutdownAll();
          if strict {
            FewerSurvivors(deps, snaps, factory, i + 1);
            return None;
          }
        }
      }
      assert snaps[..|snaps|] == snaps;
      return Some(built);
    }

    /// Replaces the tabs by saved ones. Nothing changes until every check is
    /// passed; then the focus is handed over, the old tabs are shut down and the
    /// wanted tab, or failing that the first, is activated.
    method RestoreSaved(deps: Deps, snaps: seq<TabSnapshot>, active: int, next: int,
                        factory: int -> LeafId -> HostMaker, strict: bool) returns (ok: bool)
      modifies this, focus
      ensures (Value(), ok) == RestoreTabs(old(Value()), deps, snaps, active, next, factory, strict)
      ensures !ok ==> focus.holders == old(focus.holders)
      ensures ok ==> HandedOver(old(Value()), old(focus.holders), Value(), focus.holders)
    {
      hide Survivors;
      hide HandedOver;
      hide MaxOf;
      if |snaps| == 0 {
        return false;
      }
      var usable, top := CheckIds(SnapIds(snaps));
      if !usable {
        return false;
      }
      var candidates := BuildCandidates(deps, snaps, factory, strict);
      if candidates.None? || |candidates.value| == 0 {
        return false;
      }
      SurvivorIds(deps, snaps, factory);
      ReplaceTabs(candidates.value, RestoredActive(candidates.value, active), Clamp(next, top + 1, LIMIT));
      return true;
    }

    /// Takes the focus away, shuts the old tabs down, swaps the new ones in and
    /// activates one of them.
    method ReplaceTabs(candidates: seq<Tab>, chosen: int, next: int)
      requires chosen in Ids(candidates) && -1 !in Ids(candidates)
      modifies this, focus
      ensures Value() == Tabs(candidates, chosen, next, old(focusEnabled))
      ensures HandedOver(old(Value()), old(focus.holders), Value(), focus.holders)
    {
      CurrentIsOwn(Value());
      hide HostsOf;
      var current := FindTab(activeTabId);
      if focusEnabled && current.Some? {
        focus.Lost(FocusedHost(tabs[current.value].panes));
      }
      ShutdownTabs();
      tabs := candidates;
      nextTabId := next;
      var _ := ActivateTab(chosen);
    }

    method ShutdownTabs()
      modifies `tabs, `activeTabId, focus
      ensures Value() == CloseAll(old(Value()))
      ensures focus.holders == old(focus.holders) - old(HostsOf(tabs))
    {
      for i := 0 to |tabs|
        invariant tabs == old(tabs) && focus.holders == old(focus.holders) - HostsOf(tabs[..i])
      {
        HostsOfAppend(tabs[..i], tabs[i]);
        assert tabs[..i + 1] == tabs[..i] + [tabs[i]];
        focus.Destroyed(tabs[i].panes.hosts.Values);
      }
      assert tabs[..|tabs|] == tabs;
      tabs, activeTabId := [], -1;
    }
  }

  lemma HostsOfAppend(tabs: seq<Tab>, tab: Tab)
    ensures HostsOf(tabs + [tab]) == HostsOf(tabs) + tab.panes.hosts.Values
  {
    var all := tabs + [tab];
    forall h ensures h in HostsOf(all) <==> h in HostsOf(tabs) || h in tab.panes.hosts.Values {
      if h in HostsOf(tabs) {
        var i :| 0 <= i < |tabs| && h in tabs[i].panes.hosts.Values;
        assert all[i] == tabs[i];
      }
      if h in tab.panes.hosts.Values {
        assert all[|tabs|] == tab;
      }
    }
  }

  lemma {:induction false} SurvivorsBounded(deps: Deps, snaps: seq<TabSnapshot>, factory: int -> LeafId -> HostMaker)
    ensures |Survivors(deps, snaps, factory)| <= |snaps|
  {
    hide RestoreTab;
    if snaps != [] {
      SurvivorsBounded(deps, snaps[..|snaps| - 1], factory);
    }
  }

  /// Restored tabs keep their saved identifiers.
  lemma {:induction false} SurvivorIds(deps: Deps, snaps: seq<TabSnapshot>, factory: int -> LeafId -> HostMaker)
    ensures forall id :: id in Ids(Survivors(deps, snaps, factory)) ==> id in SnapIds(snaps)
  {
    hide RestoreLayout;
    if snaps != [] {
      var front := snaps[..|snaps| - 1];
      SurvivorIds(deps, front, factory);
      assert SnapIds(snaps) == SnapIds(front) + [snaps[|snaps| - 1].id];
      var tabs := Survivors(deps, snaps, factory);
      forall id | id in Ids(tabs) ensures id in SnapIds(snaps) {
        var i :| 0 <= i < |tabs| && tabs[i].id == id;
        if i < |Survivors(deps, front, factory)| {
          assert Ids(Survivors(deps, front, factory))[i] == id;
        }
      }
    }
  }

  /// One tab lost among the first i is one tab lost in all.
  lemma {:induction false} FewerSurvivors(deps: Deps, snaps: seq<TabSnapshot>, factory: int -> LeafId -> HostMaker,
                                          i: nat)
    requires i <= |snaps| && |Survivors(deps, snaps[..i], factory)| < i
    ensures |Survivors(deps, snaps, factory)| < |snaps|
    decreases |snaps| - i
  {
    hide RestoreTab;
    if i == |snaps| {
      assert snaps[..i] == snaps;
    } else {
      assert snaps[..i + 1][..i] == snaps[..i];
      FewerSurvivors(deps, snaps, factory, i + 1);
    }
  }

  /// A save that fails at tab i fails as a whole.
  lemma {:induction false} SaveFails(tabs: seq<Tab>, i: nat, cwd: int -> LeafId -> string)
    requires i <= |tabs| && SaveTabs(tabs[..i], cwd).None?
    ensures SaveTabs(tabs, cwd).None?
    decreases |tabs| - i
  {
    if i == |tabs| {
      assert tabs[..i] == tabs;
    } else {
      assert tabs[..i + 1][..i] == tabs[..i];
      SaveFails(tabs, i + 1, cwd);
    }
  }
}
