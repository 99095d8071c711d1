/** The application's projection of a server topology onto its live controllers. */
module TopologyApp {
  import opened Identifiers
  import opened PaneModel
  import opened TabModel
  import opened TabControllers
  import opened SpaceModel
  import opened SpaceControllers
  import opened TopologyModel
  import opened TopologyInvariant
  import opened TopologyRuns

  /// The keys of a map in some order.
  method KeysOf<V>(m: map<string, V>) returns (order: seq<string>)
    ensures Distinct(order) && forall r :: r in order <==> r in m
  {
    order := [];
    var rest := m.Keys;
    while rest != {}
      invariant rest <= m.Keys && Distinct(order)
      invariant forall r :: r in order <==> r in m && r !in rest
      decreases |rest|
    {
      var r :| r in rest;
      order := order + [r];
      rest := rest - {r};
    }
  }

  class App {
    const spaces: SpaceController
    var spaceMap: map<string, int>
    var localMap: map<int, string>
    var tabMap: TabMap
    var startup: string

    ghost predicate Valid()
      reads this, spaces, spaces.Controllers()
    {
      spaces.Valid()
    }

    ghost function View(): Topology
      reads this, spaces
    {
      Topology(spaces.model, spaceMap, localMap, tabMap, startup)
    }

    constructor (spaces: SpaceController, startup: string)
      requires spaces.Valid()
      ensures Valid() && this.spaces == spaces
      ensures View() == Topology(spaces.model, map[], map[], map[], startup)
    {
      this.spaces := spaces;
      spaceMap, localMap, tabMap := map[], map[], map[];
      this.startup := startup;
    }

    // -------------------------------------------------------------------------
    // One Space's tabs

    static method ProjectRemoteTab(tabs: TabController, id: int, remote: RemoteTab, o: Outcome) returns (ok: bool)
      modifies tabs`tabs
      ensures (tabs.Value(), ok) == ProjectTab(old(tabs.Value()), id, remote, o)
    {
      var found := tabs.FindTab(id);
      if found.None? {
        return false;
      }
      tabs.tabs := tabs.tabs[found.value := ProjectOn(tabs.tabs[found.value], remote, o)];
      return Projects(o);
    }

    static method FindUnreserved(tabs: seq<Tab>, reserved: set<int>) returns (id: int)
      ensures id == FirstUnreserved(tabs, reserved)
    {
      for i := 0 to |tabs|
        invariant FirstUnreserved(tabs, reserved) == FirstUnreserved(tabs[i..], reserved)
      {
        assert tabs[i..][1..] == tabs[i + 1..];
        if tabs[i].id !in reserved {
          return tabs[i].id;
        }
      }
      return -1;
    }

    static method CollectUnclaimed(tabs: seq<Tab>, claimed: set<int>) returns (ids: seq<int>)
      ensures ids == Unclaimed(tabs, claimed)
    {
      ids := [];
      for i := 0 to |tabs|
        invariant ids == Unclaimed(tabs[..i], claimed)
      {
        assert tabs[..i + 1][..i] == tabs[..i];
        if tabs[i].id !in claimed {
          ids := ids + [tabs[i].id];
        }
      }
      assert tabs[..|tabs|] == tabs;
    }

    static method CloseThese(tabs: TabController, ids: seq<int>)
      modifies tabs, tabs.focus
      ensures tabs.Value() == CloseEach(old(tabs.Value()), ids)
    {
      hide CloseTab;
      for i := 0 to |ids|
        invariant tabs.Value() == CloseEach(old(tabs.Value()), ids[..i])
      {
        assert ids[..i + 1][..i] == ids[..i];
        var _ := tabs.Close(ids[i]);
      }
      assert ids[..|ids|] == ids;
    }

    /// Gives every remote tab of the Space a local one, projects it, and records
    /// which local tabs are claimed and in what order.
    method PlaceTabs(tabs: TabController, space: int, remotes: seq<RemoteTab>, outcomes: nat -> Outcome)
      returns (claimed: set<int>, ordered: seq<int>, ok: bool)
      modifies `tabMap, tabs
      ensures var p := PassOver(old(tabs.Value()), old(tabMap), space, remotes, outcomes);
              && tabs.Value() == p.tabs && tabMap == p.tabMap
              && claimed == p.claimed && ordered == p.ordered && ok == p.ok
    {
      hide ProjectTab;
      hide AddProjected;
      hide FirstUnreserved;
      ghost var start := StartPass(tabs.Value(), tabMap, space);
      var reserved := set r | r in tabMap && tabMap[r].0 == space :: tabMap[r].1;
      claimed, ordered, ok := {}, [], true;
      for j := 0 to |remotes|
        invariant Pass(tabs.Value(), tabMap, reserved, claimed, ordered, ok) ==
                    PlaceAll(start, space, remotes, outcomes, j)
      {
        var remote := remotes[j];
        if remote.id !in tabMap {
          var local := FindUnreserved(tabs.tabs, reserved);
          if local < 0 {
            local := tabs.AddProjectedTab();
          }
          if local < 0 {
            ok := false;
            continue;
          }
          tabMap := tabMap[remote.id := (space, local)];
          reserved := reserved + {local};
        }
        var id := tabMap[remote.id].1;
        claimed, ordered := claimed + {id}, ordered + [id];
        var projected := ProjectRemoteTab(tabs, id, remote, outcomes(j));
        ok := ok && projected;
      }
    }

    /// Makes the server's tabs the only ones, in its order, and keeps or chooses
    /// the active one.
    method FinishTabs(tabs: TabController, active: int, claimed: set<int>, ordered: seq<int>, projected: bool,
                      remotes: seq<RemoteTab>)
      returns (ok: bool)
      modifies tabs, tabs.focus
      ensures forall p: Pass ::
                && p.tabs == old(tabs.Value()) && p.tabMap == tabMap && p.claimed == claimed
                && p.ordered == ordered && p.ok == projected ==>
                (tabs.Value(), ok) == FinishPass(p, active, remotes)
    {
      hide Activate;
      hide Reorder;
      hide CloseEach;
      hide Unclaimed;
      var unclaimed := CollectUnclaimed(tabs.tabs, claimed);
      CloseThese(tabs, unclaimed);
      var moved := tabs.ReorderProjected(ordered);
      ok := projected && moved;
      if active >= 0 && active in claimed {
        var _ := tabs.ActivateTab(active);
      } else {
        var current := tabs.FindTab(tabs.activeTabId);
        if current.None? && |remotes| > 0 && remotes[0].id in tabMap {
          var _ := tabs.ActivateTab(tabMap[remotes[0].id].1);
        }
      }
    }

    method ApplySpaceTabs(remote: RemoteSpace, outcomes: nat -> Outcome) returns (ok: bool)
      requires Valid()
      modifies `tabMap, spaces`model, spaces.focus, spaces.Controllers()
      ensures Valid()
      ensures (View(), ok) == ApplySpace(old(View()), remote, outcomes)
    {
      hide PassOver;
      hide FinishPass;
      hide IndexOfSpace;
      if remote.id !in spaceMap {
        return true;
      }
      var found := spaces.FindSpace(spaceMap[remote.id]);
      if found.None? {
        return true;
      }
      var i := found.value;
      ok := ApplyAt(i, spaceMap[remote.id], remote.tabs, outcomes);
    }

    method ApplyAt(i: nat, space: int, remotes: seq<RemoteTab>, outcomes: nat -> Outcome) returns (ok: bool)
      requires Valid() && i < |spaces.model.spaces|
      modifies `tabMap, spaces`model, spaces.focus, spaces.Controllers()
      ensures Valid()
      ensures var before := old(View()).session.spaces[i].tabs;
              var p := PassOver(before, old(tabMap), space, remotes, outcomes);
              && tabMap == p.tabMap
              && spaces.model == WithTabs(old(View()).session, i, FinishPass(p, before.active, remotes).0)
              && ok == FinishPass(p, before.active, remotes).1
    {
      hide PassOver;
      hide FinishPass;
      var tabs := spaces.spaces[i].tabs;
      var active := tabs.activeTabId;
      ghost var p := PassOver(tabs.Value(), tabMap, space, remotes, outcomes);
      var claimed, ordered, projected := PlaceTabs(tabs, space, remotes, outcomes);
      assert p == Pass(tabs.Value(), tabMap, p.reserved, claimed, ordered, projected);
      ok := FinishTabs(tabs, active, claimed, ordered, projected, remotes);
      spaces.model := WithTabs(spaces.model, i, tabs.Value());
    }

    // -------------------------------------------------------------------------
    // All tabs

    /// None of the remote tabs that are bound is bound into another Space.
    method CheckStayed(remotes: seq<RemoteTab>, space: int) returns (ok: bool, ids: set<string>)
      ensures ok <==> forall j :: 0 <= j < |remotes| && remotes[j].id in tabMap ==> tabMap[remotes[j].id].0 == space
      ensures ok ==> ids == TabIds(remotes[..|remotes|])
    {
      ids := {};
      for j := 0 to |remotes|
        invariant ids == TabIds(remotes[..j])
        invariant forall l :: 0 <= l < j && remotes[l].id in tabMap ==> tabMap[remotes[l].id].0 == space
      {
        var id := remotes[j].id;
        ids := ids + {id};
        if id in tabMap && tabMap[id].0 != space {
          return false, ids;
        }
        TabIdsAppend(remotes, j);
      }
      return true, ids;
    }

    /// Every remote Space resolves to a live one, and no remote tab has moved.
    method CheckResolvable(snap: seq<RemoteSpace>) returns (ok: bool, live: set<string>)
      requires Valid()
      ensures ok == Resolvable(View(), snap)
      ensures ok ==> live == LiveTabs(snap)
    {
      hide Resolvable;
      hide LiveTabs;
      NothingToResolve(View(), snap);
      live := {};
      for i := 0 to |snap|
        invariant live == LiveTabs(snap[..i])
        invariant Resolvable(View(), snap[..i])
      {
        assert snap[..i + 1] == snap[..i] + [snap[i]];
        if snap[i].id !in spaceMap {
          FirstFailure(View(), snap, i);
          return false, live;
        }
        var found := spaces.FindSpace(spaceMap[snap[i].id]);
        if found.None? {
          FirstFailure(View(), snap, i);
          return false, live;
        }
        var stayed, ids := CheckStayed(snap[i].tabs, spaceMap[snap[i].id]);
        if !stayed {
          FirstFailure(View(), snap, i);
          return false, live;
        }
        live := live + ids;
        LiveTabsAppend(snap[..i], snap[i]);
        OneMoreResolvable(View(), snap, i);
      }
      assert snap[..|snap|] == snap;
      return true, live;
    }

    method CloseTabIn(space: int, tab: int)
      requires Valid()
      modifies spaces`model, spaces.focus, spaces.Controllers()
      ensures Valid() && spaces.model == CloseIn(old(spaces.model), space, tab)
    {
      hide IndexOfSpace;
      hide CloseTab;
      var found := spaces.FindSpace(space);
      if found.Some? {
        var i := found.value;
        var tabs := spaces.spaces[i].tabs;
        var _ := tabs.Close(tab);
        spaces.model := WithTabs(spaces.model, i, tabs.Value());
      }
    }

    /// Closes the local tabs of remote tabs that are gone and forgets them.
    method SweepTabs(live: set<string>) returns (ghost order: seq<string>)
      requires Valid()
      modifies `tabMap, spaces`model, spaces.focus, spaces.Controllers()
      ensures Valid() && View() == Sweep(old(View()), live, order)
      ensures Distinct(order) && forall r :: r in order <==> r in old(tabMap)
    {
      hide CloseIn;
      hide Distinct;
      var keys := KeysOf(tabMap);
      order := keys;
      var removed: set<string> := {};
      for k := 0 to |keys|
        invariant Valid() && tabMap == old(tabMap) && spaceMap == old(spaceMap) && localMap == old(localMap)
                  && startup == old(startup)
        invariant spaces.model == SweepSession(old(spaces.model), old(tabMap), live, keys[..k])
        invariant forall r :: r in removed <==> r in keys[..k] && r !in live
      {
        assert keys[..k + 1][..k] == keys[..k];
        var r := keys[k];
        assert r in keys;
        if r !in live {
          CloseTabIn(tabMap[r].0, tabMap[r].1);
          removed := removed + {r};
        }
      }
      assert keys[..|keys|] == keys;
      WithoutStale(tabMap, keys, removed, live);
      tabMap := tabMap - removed;
    }

    method EnterStartupTab()
      requires Valid()
      modifies `startup, spaces`model, spaces`activeSpaceId, spaces.focus, spaces.Controllers()
      ensures Valid() && View() == EnterStartup(old(View()))
    {
      hide IndexOfSpace;
      hide ActivateSpace;
      if startup == "" || startup !in tabMap {
        return;
      }
      var (space, tab) := tabMap[startup];
      var found := spaces.FindSpace(space);
      if found.None? {
        return;
      }
      var activated := ActivateIn(found.value, tab);
      if activated {
        var entered := spaces.Activate(space);
        if entered {
          startup := "";
        }
      }
    }

    method ActivateIn(i: nat, tab: int) returns (ok: bool)
      requires Valid() && i < |spaces.model.spaces|
      modifies spaces`model, spaces.focus, spaces.Controllers()
      ensures Valid()
      ensures spaces.model == WithTabs(old(spaces.model), i, Activate(old(spaces.model).spaces[i].tabs, tab).0)
      ensures ok == Activate(old(spaces.model).spaces[i].tabs, tab).1
    {
      var tabs := spaces.spaces[i].tabs;
      ok := tabs.ActivateTab(tab);
      spaces.model := WithTabs(spaces.model, i, tabs.Value());
    }

    method ApplyRemoteTabs(snap: seq<RemoteSpace>, outcomes: Outcomes) returns (ok: bool, ghost order: seq<string>)
      requires Valid()
      modifies `tabMap, `startup, spaces`model, spaces`activeSpaceId, spaces.focus, spaces.Controllers()
      ensures Valid()
      ensures (View(), ok) == ApplyTabs(old(View()), snap, outcomes, order)
    {
      hide ApplySpace;
      hide Resolvable;
      hide LiveTabs;
      hide Sweep;
      hide EnterStartup;
      order := [];
      var resolvable, live := CheckResolvable(snap);
      if !resolvable {
        return false, order;
      }
      ok := true;
      for k := 0 to |snap|
        invariant Valid() && (View(), ok) == ApplyEach(old(View()), snap, outcomes, k)
      {
        var applied := ApplySpaceTabs(snap[k], outcomes(k));
        ok := ok && applied;
      }
      order := SweepTabs(live);
      if ok {
        EnterStartupTab();
      }
    }

    // -------------------------------------------------------------------------
    // All Spaces

    method Bind(remote: string, local: int)
      modifies `spaceMap, `localMap
      ensures View() == BindSpace(old(View()), remote, local)
    {
      if local in localMap {
        spaceMap := spaceMap - {localMap[local]};
      }
      if remote in spaceMap {
        localMap := localMap - {spaceMap[remote]};
      }
      localMap := localMap[local := remote];
      spaceMap := spaceMap[remote := local];
    }

    method Erase(remote: string)
      modifies `spaceMap, `localMap
      ensures View() == EraseSpace(old(View()), remote)
    {
      if remote in spaceMap {
        localMap := localMap - {spaceMap[remote]};
        spaceMap := spaceMap - {remote};
      }
    }

    method CreateMissingSpaces(snap: seq<RemoteSpace>) returns (ok: bool)
      requires Valid()
      modifies `spaceMap, `localMap, spaces, spaces.focus
      ensures Valid() && fresh(spaces.Controllers() - old(spaces.Controllers()))
      ensures (View(), ok) == CreateMissing(old(View()), snap, |snap|)
    {
      hide CreateSpace;
      hide BindSpace;
      for k := 0 to |snap|
        invariant Valid() && fresh(spaces.Controllers() - old(spaces.Controllers()))
        invariant (View(), true) == CreateMissing(old(View()), snap, k)
      {
        if snap[k].id !in spaceMap {
          CreateRefused(spaces.model, snap[k].name, snap[k].root);
          var local := spaces.Create(snap[k].name, snap[k].root);
          if local < 0 {
            CreateFails(old(View()), snap, k + 1);
            return false;
          }
          Bind(snap[k].id, local);
        }
      }
      return true;
    }

    /// Closes the local Spaces of remote Spaces that are gone; those that could be
    /// closed are forgotten.
    method CloseRemovedSpaces(live: set<string>) returns (ghost order: seq<string>)
      requires Valid()
      modifies `spaceMap, `localMap, spaces, spaces.focus, spaces.Controllers()
      ensures Valid() && spaces.Controllers() <= old(spaces.Controllers())
      ensures var (session, removed) := CloseRemoved(old(spaces.model), old(spaceMap), live, order);
              View() == EraseAll(old(View()).(session := session), removed)
      ensures Distinct(order) && forall r :: r in order <==> r in old(spaceMap)
    {
      hide CloseSpace;
      hide EraseSpace;
      hide Distinct;
      var keys := KeysOf(spaceMap);
      order := keys;
      var removed: seq<string> := CloseListed(live, keys);
      ghost var closed := View();
      for k := 0 to |removed|
        invariant Valid() && spaces.Controllers() <= old(spaces.Controllers())
        invariant View() == EraseAll(closed, removed[..k])
      {
        assert removed[..k + 1][..k] == removed[..k];
        Erase(removed[k]);
      }
      assert removed[..|removed|] == removed;
    }

    method CloseListed(live: set<string>, keys: seq<string>) returns (removed: seq<string>)
      requires Valid() && forall r :: r in keys <==> r in spaceMap
      modifies spaces, spaces.focus, spaces.Controllers()
      ensures Valid() && spaces.Controllers() <= old(spaces.Controllers())
      ensures (spaces.model, removed) == CloseRemoved(old(spaces.model), spaceMap, live, keys)
    {
      hide CloseSpace;
      removed := [];
      for k := 0 to |keys|
        invariant Valid() && spaces.Controllers() <= old(spaces.Controllers())
        invariant (spaces.model, removed) == CloseRemoved(old(spaces.model), spaceMap, live, keys[..k])
      {
        assert keys[..k + 1][..k] == keys[..k];
        var r := keys[k];
        assert r in keys;
        if r !in live {
          var ok := spaces.Close(spaceMap[r]);
          if ok {
            removed := removed + [r];
          }
        }
      }
      assert keys[..|keys|] == keys;
    }

    method RenameSpaces(snap: seq<RemoteSpace>)
      requires Valid()
      modifies spaces`spaces, spaces`model
      ensures Valid() && spaces.Controllers() == old(spaces.Controllers())
      ensures View() == TopologyModel.Rename(old(View()), snap, |snap|)
    {
      hide RenameSpace;
      hide SetSpaceRoot;
      for k := 0 to |snap|
        invariant Valid() && spaces.Controllers() == old(spaces.Controllers())
        invariant View() == TopologyModel.Rename(old(View()), snap, k)
      {
        if snap[k].id in spaceMap {
          spaces.Rename(spaceMap[snap[k].id], snap[k].name);
          spaces.SetRoot(spaceMap[snap[k].id], snap[k].root);
        }
      }
    }

    /// The Space phase: binds, creates, closes and renames local Spaces.
    method ApplyRemoteSpaces(snap: seq<RemoteSpace>) returns (ok: bool, ghost order: seq<string>)
      requires Valid()
      modifies `spaceMap, `localMap, spaces, spaces.focus, spaces.Controllers()
      ensures Valid() && fresh(spaces.Controllers() - old(spaces.Controllers()))
      ensures (View(), ok) == ApplySpaces(old(View()), snap, order)
    {
      hide BindSpace;
      hide CreateMissing;
      hide CloseRemoved;
      hide EraseAll;
      hide TopologyModel.Rename;
      order := [];
      if |snap| == 0 {
        return false, order;
      }
      if spaceMap == map[] {
        Bind(snap[0].id, spaces.activeSpaceId);
      }
      var created := CreateMissingSpaces(snap);
      if !created {
        return false, order;
      }
      order := CloseRemovedSpaces(set i | 0 <= i < |snap| :: snap[i].id);
      RenameSpaces(snap);
      return true, order;
    }

    /// Applies a server snapshot: Spaces first and then, if that went well, tabs.
    method ApplyRemoteSnapshot(snap: seq<RemoteSpace>, outcomes: Outcomes)
      returns (ok: bool, ghost spaceOrder: seq<string>, ghost tabOrder: seq<string>)
      requires Valid()
      modifies this, spaces, spaces.focus, spaces.Controllers()
      ensures Valid()
      ensures (View(), ok) == ApplySnapshot(old(View()), snap, outcomes, spaceOrder, tabOrder)
      ensures old(TopologyOk(View())) && UniqueSpaces(snap) ==> TopologyOk(View())
    {
      hide ApplySpaces;
      hide ApplyTabs;
      hide TopologyOk;
      hide UniqueSpaces;
      ghost var before := View();
      tabOrder := [];
      ok, spaceOrder := ApplyRemoteSpaces(snap);
      if ok {
        ok, tabOrder := ApplyRemoteTabs(snap, outcomes);
      }
      if TopologyOk(before) && UniqueSpaces(snap) {
        SnapshotKeeps(before, Step(snap, outcomes, spaceOrder, tabOrder));
      }
    }
  }

  function TabIds(remotes: seq<RemoteTab>): set<string> {
    set j | 0 <= j < |remotes| :: remotes[j].id
  }

  /// Dropping the stale keys leaves the entries of live remote tabs.
  lemma WithoutStale(m: TabMap, keys: seq<string>, removed: set<string>, live: set<string>)
    requires forall r :: r in keys <==> r in m
    requires forall r :: r in removed <==> r in keys && r !in live
    ensures m - removed == map r | r in m && r in live :: m[r]
  {}

  lemma TabIdsAppend(remotes: seq<RemoteTab>, j: nat)
    requires j < |remotes|
    ensures TabIds(remotes[..j + 1]) == TabIds(remotes[..j]) + {remotes[j].id}
  {
    assert remotes[..j + 1] == remotes[..j] + [remotes[j]];
    forall r ensures r in TabIds(remotes[..j + 1]) <==> r in TabIds(remotes[..j]) || r == remotes[j].id {
      if r in TabIds(remotes[..j]) {
        var l :| 0 <= l < j && remotes[..j][l].id == r;
        assert remotes[..j + 1][l].id == r;
      }
      assert remotes[..j + 1][j].id == remotes[j].id;
    }
  }

  lemma LiveTabsAppend(snap: seq<RemoteSpace>, remote: RemoteSpace)
    ensures LiveTabs(snap + [remote]) == LiveTabs(snap) + TabIds(remote.tabs[..|remote.tabs|])
  {
    var all := snap + [remote];
    assert remote.tabs[..|remote.tabs|] == remote.tabs;
    forall r ensures r in LiveTabs(all) <==> r in LiveTabs(snap) || r in TabIds(remote.tabs) {
      if r in LiveTabs(snap) {
        var i, j :| 0 <= i < |snap| && 0 <= j < |snap[i].tabs| && snap[i].tabs[j].id == r;
        assert all[i].tabs[j].id == r;
      }
      if r in TabIds(remote.tabs) {
        var j :| 0 <= j < |remote.tabs| && remote.tabs[j].id == r;
        assert all[|snap|].tabs[j].id == r;
      }
    }
  }

  /// A Space that cannot be made fails the whole phase with what was made before.
  lemma {:induction false} CreateFails(t: Topology, snap: seq<RemoteSpace>, k: nat)
    requires k <= |snap| && !CreateMissing(t, snap, k).1
    ensures CreateMissing(t, snap, |snap|) == CreateMissing(t, snap, k)
    decreases |snap| - k
  {
    hide CreateSpace;
    hide BindSpace;
    if k < |snap| {
      CreateFails(t, snap, k + 1);
    }
  }

  lemma CreateRefused(s: Spaces, name: string, root: string)
    ensures CreateSpace(s, name, root).1 < 0 ==> CreateSpace(s, name, root).0 == s
  {}

  lemma NothingToResolve(t: Topology, snap: seq<RemoteSpace>)
    ensures Resolvable(t, snap[..0]) && LiveTabs(snap[..0]) == {}
  {}

  lemma FirstFailure(t: Topology, snap: seq<RemoteSpace>, i: nat)
    requires i < |snap|
    requires snap[i].id !in t.spaceMap || t.spaceMap[snap[i].id] !in SpaceIds(t.session.spaces)
          || exists j ::
               && 0 <= j < |snap[i].tabs| && snap[i].tabs[j].id in t.tabMap
               && t.tabMap[snap[i].tabs[j].id].0 != t.spaceMap[snap[i].id]
    ensures !Resolvable(t, snap)
  {}

  lemma OneMoreResolvable(t: Topology, snap: seq<RemoteSpace>, i: nat)
    requires i < |snap| && Resolvable(t, snap[..i])
    requires snap[i].id in t.spaceMap && t.spaceMap[snap[i].id] in SpaceIds(t.session.spaces)
    requires forall l :: 0 <= l < |snap[i].tabs| && snap[i].tabs[l].id in t.tabMap ==>
               t.tabMap[snap[i].tabs[l].id].0 == t.spaceMap[snap[i].id]
    ensures Resolvable(t, snap[..i + 1])
  {
    forall n | 0 <= n < i ensures snap[..i + 1][n] == snap[..i][n] {}
  }
}
