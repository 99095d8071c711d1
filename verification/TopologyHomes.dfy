/** Snapshots of a server whose tabs stay in their Space: every tab phase of a run
    resolves and converges, and the same snapshot again changes nothing. */
module TopologyHomes {
  import opened Identifiers
  import opened SplitTrees
  import opened PaneModel
  import opened TabModel
  import opened TabControllers
  import opened TabLaws
  import opened SpaceModel
  import opened TopologyModel
  import opened TopologyLaws
  import opened TopologyInvariant
  import opened TopologyRuns
  import opened TopologyConverges

  // ---------------------------------------------------------------------------
  // What the Space phase leaves bound

  /// Bindings of the given remote Spaces stay.
  ghost predicate BindingsStay(t: Topology, t': Topology, live: set<string>) {
    t'.tabMap == t.tabMap && forall r :: r in t.spaceMap && r in live ==>
      r in t'.spaceMap && t'.spaceMap[r] == t.spaceMap[r]
  }

  lemma {:induction false} CreatingKeepsBindings(t: Topology, snap: seq<RemoteSpace>, k: nat, live: set<string>)
    requires TopologyOk(t) && k <= |snap|
    ensures BindingsStay(t, CreateMissing(t, snap, k).0, live)
  {
    hide CreateSpace;
    hide TopologyOk;
    if k > 0 {
      CreatingKeepsBindings(t, snap, k - 1, live);
      CreateMissingKeeps(t, snap, k - 1);
      var (t1, ok) := CreateMissing(t, snap, k - 1);
      var remote := snap[k - 1];
      if ok && remote.id !in t1.spaceMap && CreateSpace(t1.session, remote.name, remote.root).1 >= 0 {
        NewBinding(t1, remote);
      }
    }
  }

  lemma NewBinding(t: Topology, remote: RemoteSpace)
    requires TopologyOk(t) && remote.id !in t.spaceMap && CreateSpace(t.session, remote.name, remote.root).1 >= 0
    ensures var (session, id) := CreateSpace(t.session, remote.name, remote.root);
            var t' := BindSpace(t.(session := session), remote.id, id);
            t'.tabMap == t.tabMap && t'.spaceMap == t.spaceMap[remote.id := id]
  {
    BoundBelow(t);
    hide SpacesOk;
    hide SpacesBound;
    hide Entered;
    hide Held;
  }

  lemma ClosingKeepsBindings(t: Topology, live: set<string>, order: seq<string>)
    requires TopologyOk(t)
    ensures var (session, removed) := CloseRemoved(t.session, t.spaceMap, live, order);
            BindingsStay(t, EraseAll(t.(session := session), removed), live)
  {
    hide CloseRemoved;
    hide SpacesOk;
    hide Entered;
    hide Held;
    hide EraseAll;
    hide SpaceIds;
    var (session, removed) := CloseRemoved(t.session, t.spaceMap, live, order);
    CloseRemovedShrinks(t.session, t.spaceMap, live, order);
    EraseAllLaw(t.(session := session), removed);
    hide Shrunk;
  }

  /// The Space phase leaves the tab map alone and the Spaces of the snapshot bound
  /// to the local ones they had; what it could not finish drops no binding.
  lemma SpacesKeepBindings(t: Topology, snap: seq<RemoteSpace>, order: seq<string>, live: set<string>)
    requires TopologyOk(t)
    ensures var (t', ok) := ApplySpaces(t, snap, order);
            if ok then BindingsStay(t, t', LiveSpaces(snap)) else BindingsStay(t, t', live)
  {
    hide CreateMissing;
    hide CloseRemoved;
    hide EraseAll;
    hide Rename;
    hide TopologyOk;
    if snap != [] {
      if t.spaceMap == map[] { FirstBound(t, snap[0].id); }
      var t1 := if t.spaceMap == map[] then BindSpace(t, snap[0].id, t.session.active) else t;
      CreatingKeepsBindings(t1, snap, |snap|, live);
      CreatingKeepsBindings(t1, snap, |snap|, LiveSpaces(snap));
      CreateMissingKeeps(t1, snap, |snap|);
      var (t2, ok) := CreateMissing(t1, snap, |snap|);
      if ok {
        ClosingKeepsBindings(t2, LiveSpaces(snap), order);
        CloseGoneKeeps(t2, LiveSpaces(snap), order);
        var (session, removed) := CloseRemoved(t2.session, t2.spaceMap, LiveSpaces(snap), order);
        RenameAllKeeps(EraseAll(t2.(session := session), removed), snap, |snap|);
      }
    }
  }

  // ---------------------------------------------------------------------------
  // Tabs at home

  /// What decoding guarantees of a snapshot: it has Spaces, they differ, each has
  /// tabs, and those differ.
  ghost predicate Decoded(snap: seq<RemoteSpace>) {
    && UniqueSpaces(snap)
    && forall i :: 0 <= i < |snap| ==> |snap[i].tabs| > 0 && UniqueRemotes(snap[i].tabs)
  }

  /// Every remote tab is in its home Space.
  ghost predicate AtHome(snap: seq<RemoteSpace>, home: string -> string) {
    forall i, j :: 0 <= i < |snap| && 0 <= j < |snap[i].tabs| ==> home(snap[i].tabs[j].id) == snap[i].id
  }

  /// Every entry of the tab map is into the local Space of its tab's home.
  ghost predicate EntriesHome(t: Topology, home: string -> string) {
    forall r :: r in t.tabMap ==> home(r) in t.spaceMap && t.spaceMap[home(r)] == t.tabMap[r].0
  }

  lemma TabsDiffer(snap: seq<RemoteSpace>, home: string -> string)
    requires Decoded(snap) && AtHome(snap, home)
    ensures UniqueTabs(snap)
  {
    forall i, j, k, l | 0 <= i < |snap| && 0 <= j < |snap[i].tabs| && 0 <= k < |snap| && 0 <= l < |snap[k].tabs|
                        && snap[i].tabs[j].id == snap[k].tabs[l].id
      ensures i == k && j == l
    {
      assert home(snap[i].tabs[j].id) == snap[i].id && home(snap[k].tabs[l].id) == snap[k].id;
      if i == k {
        assert UniqueRemotes(snap[i].tabs);
      }
    }
  }

  /// With every tab at home, whatever the Space phase bound resolves.
  lemma HomesResolve(t: Topology, snap: seq<RemoteSpace>, order: seq<string>, home: string -> string)
    requires TopologyOk(t) && EntriesHome(t, home) && AtHome(snap, home) && ApplySpaces(t, snap, order).1
    ensures Resolvable(ApplySpaces(t, snap, order).0, snap)
  {
    var t1 := ApplySpaces(t, snap, order).0;
    ApplySpacesKeeps(t, snap, order);
    SpacesKeepBindings(t, snap, order, {});
    hide ApplySpaces;
    BoundAreLive(t1);
    hide TopologyOk;
    hide SpaceIds;
    forall i | 0 <= i < |snap|
      ensures snap[i].id in t1.spaceMap && t1.spaceMap[snap[i].id] in SpaceIds(t1.session.spaces)
      ensures forall j :: 0 <= j < |snap[i].tabs| && snap[i].tabs[j].id in t1.tabMap ==>
                t1.tabMap[snap[i].tabs[j].id].0 == t1.spaceMap[snap[i].id]
    {
      assert snap[i].id in LiveSpaces(snap);
      forall j | 0 <= j < |snap[i].tabs| && snap[i].tabs[j].id in t1.tabMap
        ensures t1.tabMap[snap[i].tabs[j].id].0 == t1.spaceMap[snap[i].id]
      {
        assert home(snap[i].tabs[j].id) == snap[i].id;
      }
    }
  }

  lemma BoundAreLive(t: Topology)
    requires TopologyOk(t)
    ensures forall r :: r in t.spaceMap ==> t.spaceMap[r] in SpaceIds(t.session.spaces)
  {
    hide SpacesOk;
    hide SpaceIds;
  }

  /// Passing over the Spaces moves no tab.
  lemma {:induction false} PassesResolve(t: Topology, snap: seq<RemoteSpace>, outcomes: Outcomes, k: nat)
    requires Passing(t, snap) && UniqueSpaces(snap) && UniqueTabs(snap) && Resolvable(t, snap) && k <= |snap|
    ensures Resolvable(ApplyEach(t, snap, outcomes, k).0, snap)
  {
    hide Passing;
    hide UniqueSpaces;
    hide UniqueTabs;
    hide ApplySpace;
    hide Resolvable;
    if k > 0 {
      PassesResolve(t, snap, outcomes, k - 1);
      ApplyEachKeeps(t, snap, outcomes, k - 1);
      PassResolves(ApplyEach(t, snap, outcomes, k - 1).0, snap, k - 1, outcomes(k - 1));
    }
  }

  lemma PassResolves(t: Topology, snap: seq<RemoteSpace>, k: nat, outcomes: nat -> Outcome)
    requires Passing(t, snap) && UniqueSpaces(snap) && UniqueTabs(snap) && Resolvable(t, snap) && k < |snap|
    ensures Resolvable(ApplySpace(t, snap[k], outcomes).0, snap)
  {
    hide Passing;
    hide UniqueSpaces;
    hide UniqueTabs;
    hide ApplySpace;
    hide PassedAt;
    hide PassOver;
    hide FinishPass;
    hide IndexOfSpace;
    var i := IndexOfSpace(t.session.spaces, t.spaceMap[snap[k].id]).value;
    ApplyIsPass(t, snap, k, i, outcomes);
    ResolvableStays(t, ApplySpace(t, snap[k], outcomes).0, snap, k, i);
  }

  /// After the tab phase every entry is into the home of its tab.
  lemma TabsStayHome(t: Topology, snap: seq<RemoteSpace>, outcomes: Outcomes, order: seq<string>,
                     home: string -> string)
    requires TopologyOk(t) && Decoded(snap) && AtHome(snap, home) && Resolvable(t, snap)
    ensures EntriesHome(ApplyTabs(t, snap, outcomes, order).0, home)
  {
    TabsDiffer(snap, home);
    PassingStarts(t, snap);
    hide Passing;
    hide UniqueTabs;
    PassesResolve(t, snap, outcomes, |snap|);
    ApplyEachKeeps(t, snap, outcomes, |snap|);
    var t1 := ApplyEach(t, snap, outcomes, |snap|).0;
    hide ApplyEach;
    hide TopologyOk;
    hide EnterStartup;
    hide SweepSession;
    var t2 := Sweep(t1, LiveTabs(snap), order);
    var t3 := EnterStartup(t2);
    StartupKeepsMaps(t2);
    forall r | r in t2.tabMap ensures home(r) in t2.spaceMap && t2.spaceMap[home(r)] == t2.tabMap[r].0 {
      var i, j :| 0 <= i < |snap| && 0 <= j < |snap[i].tabs| && snap[i].tabs[j].id == r;
      assert home(snap[i].tabs[j].id) == snap[i].id;
    }
  }

  lemma StartupKeepsMaps(t: Topology)
    ensures EnterStartup(t).tabMap == t.tabMap && EnterStartup(t).spaceMap == t.spaceMap
  {
    hide ActivateSpace;
    hide Activate;
  }

  // ---------------------------------------------------------------------------
  // Runs

  /// A run of decoded snapshots in which no tab ever changes its Space.
  ghost predicate HomeRun(states: seq<Topology>, steps: seq<Step>, home: string -> string) {
    Run(states, steps) && forall k :: 0 <= k < |steps| ==> Decoded(steps[k].snap) && AtHome(steps[k].snap, home)
  }

  /// One snapshot keeps tabs at home, and its tab phase resolves if it starts.
  lemma HomeStep(t: Topology, step: Step, home: string -> string)
    requires TopologyOk(t) && EntriesHome(t, home) && Decoded(step.snap) && AtHome(step.snap, home)
    ensures EntriesHome(ApplySnapshot(t, step.snap, step.outcomes, step.spaceOrder, step.tabOrder).0, home)
    ensures ApplySpaces(t, step.snap, step.spaceOrder).1 ==> Resolvable(BeforeTabs(t, step), step.snap)
  {
    hide TopologyOk;
    hide AtHome;
    hide Decoded;
    hide Resolvable;
    hide ApplyTabs;
    ApplySpacesKeeps(t, step.snap, step.spaceOrder);
    if ApplySpaces(t, step.snap, step.spaceOrder).1 {
      hide ApplySpaces;
      hide EntriesHome;
      HomesResolve(t, step.snap, step.spaceOrder, home);
      TabsStayHome(BeforeTabs(t, step), step.snap, step.outcomes, step.tabOrder, home);
    } else {
      SpacesKeepBindings(t, step.snap, step.spaceOrder, set r | r in t.spaceMap);
      hide ApplySpaces;
    }
  }

  /// Over every such run, after each snapshot that reaches the tab phase the tab
  /// map is injective, holds only tabs of the snapshot, and every entry names a
  /// live tab of a live Space.
  lemma {:induction false} RunResolves(states: seq<Topology>, steps: seq<Step>, home: string -> string, k: nat)
    requires HomeRun(states, steps, home) && k < |states|
    ensures TopologyOk(states[k]) && EntriesHome(states[k], home)
    ensures k < |steps| && ApplySpaces(states[k], steps[k].snap, steps[k].spaceOrder).1 ==>
              Resolvable(BeforeTabs(states[k], steps[k]), steps[k].snap)
    ensures k > 0 && ApplySpaces(states[k - 1], steps[k - 1].snap, steps[k - 1].spaceOrder).1 ==>
              NoneDangles(states[k]) && states[k].tabMap.Keys <= LiveTabs(steps[k - 1].snap)
  {
    hide ApplySnapshot;
    hide NoneDangles;
    hide Resolvable;
    hide UniqueSpaces;
    hide UniqueRemotes;
    hide AtHome;
    hide BeforeTabs;
    hide SpacesOk;
    hide TopologyOk;
    hide LiveTabs;
    RunKeepsTopology(states, steps, k);
    if k > 0 {
      RunResolves(states, steps, home, k - 1);
      HomeStep(states[k - 1], steps[k - 1], home);
    }
    if k < |steps| {
      HomeStep(states[k], steps[k], home);
    }
  }

  /// And with identifiers to spare, each such snapshot leaves every Space it names
  /// with exactly the images of its tabs, whatever the run did before; it succeeds
  /// exactly when every tab projects.
  lemma RunConverges(states: seq<Topology>, steps: seq<Step>, home: string -> string, k: nat)
    requires HomeRun(states, steps, home) && k < |steps|
    requires ApplySpaces(states[k], steps[k].snap, steps[k].spaceOrder).1
    requires forall i :: 0 <= i < |steps[k].snap| ==> RoomFor(BeforeTabs(states[k], steps[k]), steps[k].snap[i])
    ensures ApplySnapshot(states[k], steps[k].snap, steps[k].outcomes, steps[k].spaceOrder, steps[k].tabOrder).1 <==>
              EveryProjects(steps[k].snap, steps[k].outcomes, |steps[k].snap|)
    ensures forall i :: 0 <= i < |steps[k].snap| ==> Converged(states[k + 1], steps[k].snap[i])
  {
    var step := steps[k];
    RunResolves(states, steps, home, k);
    TabsDiffer(step.snap, home);
    ApplySpacesKeeps(states[k], step.snap, step.spaceOrder);
    assert Decoded(step.snap);
    hide TopologyOk;
    hide EntriesHome;
    hide AtHome;
    hide UniqueSpaces;
    hide UniqueTabs;
    hide UniqueRemotes;
    hide Resolvable;
    hide RoomFor;
    hide Converged;
    hide EveryProjects;
    hide ApplySpaces;
    ApplyTabsConverges(BeforeTabs(states[k], step), step.snap, step.outcomes, step.tabOrder);
    hide ApplyTabs;
  }

  // ---------------------------------------------------------------------------
  // The same snapshot again

  /// The Space holds the images of the remote tabs with their layouts in place,
  /// and one of them is active.
  ghost predicate InPlace(tabs: Tabs, remotes: seq<RemoteTab>, outcomes: nat -> Outcome) {
    && TabsOk(tabs) && tabs.active in Ids(tabs.tabs) && |tabs.tabs| == |remotes|
    && forall j :: 0 <= j < |remotes| ==> outcomes(j) == Alike(tabs.tabs[j].panes)
  }

  /// The first k identifiers claimed, in order, and nothing else done.
  ghost function Claimed(p: Pass, ids: seq<int>): Pass {
    p.(claimed := p.claimed + Elements(ids), ordered := p.ordered + ids)
  }

  lemma AgainClaims(p: Pass, space: int, remotes: seq<RemoteTab>, outcomes: nat -> Outcome, k: nat)
    requires k < |remotes| && InPlace(p.tabs, remotes, outcomes) && Matches(p.tabs.tabs, remotes, p.tabMap, space)
    ensures Place(Claimed(p, Ids(p.tabs.tabs)[..k]), space, remotes[k], outcomes(k)) ==
              Claimed(p, Ids(p.tabs.tabs)[..k + 1])
  {
    var ids := Ids(p.tabs.tabs);
    var id := p.tabs.tabs[k].id;
    assert remotes[k].id in p.tabMap && p.tabMap[remotes[k].id] == (space, id);
    AgainProjects(p.tabs, space, remotes, p.tabMap, outcomes, k);
    hide InPlace;
    hide Matches;
    hide ProjectTab;
    hide Claim;
    hide Claimed;
    hide Elements;
    assert ids[..k + 1] == ids[..k] + [id];
    hide Ids;
    ClaimAgain(p, ids[..k], id, remotes[k], outcomes(k));
    ClaimedSame(p, ids[..k]);
  }

  lemma ClaimAgain(p: Pass, front: seq<int>, id: int, remote: RemoteTab, o: Outcome)
    requires ProjectTab(p.tabs, id, remote, o) == (p.tabs, true)
    ensures Claim(Claimed(p, front), id, remote, o) == Claimed(p, front + [id])
  {
    hide ProjectTab;
    ElementsOfAppend(front, [id]);
    assert Elements([id]) == {id};
    hide Elements;
    assert p.ordered + front + [id] == p.ordered + (front + [id]);
  }

  lemma ClaimedSame(p: Pass, ids: seq<int>)
    ensures Claimed(p, ids).tabMap == p.tabMap
  {}

  /// A tab whose name and layout are the server's already is projected to itself.
  lemma AgainProjects(t: Tabs, space: int, remotes: seq<RemoteTab>, m: TabMap, outcomes: nat -> Outcome, k: nat)
    requires k < |remotes| && InPlace(t, remotes, outcomes) && Matches(t.tabs, remotes, m, space)
    ensures ProjectTab(t, t.tabs[k].id, remotes[k], outcomes(k)) == (t, true)
  {
    var tabs, id := t.tabs, t.tabs[k].id;
    assert Ids(tabs)[k] == id && Distinct(Ids(tabs));
    SameIndex(Ids(tabs), IndexOfTab(tabs, id).value, k);
    hide IndexOfTab;
    assert ProjectOn(tabs[k], remotes[k], outcomes(k)) == tabs[k];
    assert tabs[k := tabs[k]] == tabs;
  }

  lemma {:induction false} AgainPlaces(p: Pass, space: int, remotes: seq<RemoteTab>, outcomes: nat -> Outcome, k: nat)
    requires k <= |remotes| && InPlace(p.tabs, remotes, outcomes) && Matches(p.tabs.tabs, remotes, p.tabMap, space)
    ensures PlaceAll(p, space, remotes, outcomes, k) == Claimed(p, Ids(p.tabs.tabs)[..k])
  {
    hide InPlace;
    hide Matches;
    hide Place;
    if k == 0 {
      assert Ids(p.tabs.tabs)[..0] == [];
      assert p.claimed + Elements<int>([]) == p.claimed && p.ordered + [] == p.ordered;
    } else {
      AgainPlaces(p, space, remotes, outcomes, k - 1);
      assert |Ids(p.tabs.tabs)| >= k by { SizesAgree(p.tabs, remotes, outcomes); }
      AgainClaims(p, space, remotes, outcomes, k - 1);
    }
  }

  lemma SizesAgree(tabs: Tabs, remotes: seq<RemoteTab>, outcomes: nat -> Outcome)
    requires InPlace(tabs, remotes, outcomes)
    ensures |Ids(tabs.tabs)| == |remotes| && Distinct(Ids(tabs.tabs)) && tabs.active in Ids(tabs.tabs)
            && tabs.active >= 0
  {
    var i :| 0 <= i < |tabs.tabs| && Ids(tabs.tabs)[i] == tabs.active;
  }

  lemma {:induction false} NothingUnclaimed(tabs: seq<Tab>, claimed: set<int>)
    requires forall i :: 0 <= i < |tabs| ==> tabs[i].id in claimed
    ensures Unclaimed(tabs, claimed) == []
  {
    if tabs != [] {
      NothingUnclaimed(tabs[..|tabs| - 1], claimed);
    }
  }

  lemma SameOrder(t: Tabs)
    requires Distinct(Ids(t.tabs))
    ensures Reorder(t, Ids(t.tabs)) == (t, true)
  {
    var ids := Ids(t.tabs);
    ReorderLaw(t, ids);
    var t' := Reorder(t, ids).0;
    assert t' == t.(tabs := t'.tabs);
    hide Reorder;
    SameTabsSameOrder(t.tabs, t'.tabs);
  }

  lemma SameTabsSameOrder(tabs: seq<Tab>, tabs': seq<Tab>)
    requires Distinct(Ids(tabs)) && Ids(tabs') == Ids(tabs) && forall tab :: tab in tabs' ==> tab in tabs
    ensures tabs' == tabs
  {
    assert |tabs'| == |Ids(tabs')| == |tabs|;
    forall i | 0 <= i < |tabs| ensures tabs'[i] == tabs[i] {
      assert tabs'[i] in tabs';
      var j :| 0 <= j < |tabs| && tabs[j] == tabs'[i];
      assert Ids(tabs)[j] == Ids(tabs')[i] == Ids(tabs)[i];
    }
  }

  lemma AgainFinishes(tabs: Tabs, m: TabMap, space: int, remotes: seq<RemoteTab>, outcomes: nat -> Outcome)
    requires InPlace(tabs, remotes, outcomes) && Matches(tabs.tabs, remotes, m, space)
    ensures var p := PassOver(tabs, m, space, remotes, outcomes);
            p.tabMap == m && FinishPass(p, tabs.active, remotes) == (tabs, true)
  {
    hide Matches;
    hide InPlace;
    hide FinishPass;
    hide Ids;
    hide PlaceAll;
    var p0 := StartPass(tabs, m, space);
    var ids := Ids(tabs.tabs);
    SizesAgree(tabs, remotes, outcomes);
    AgainPlaces(p0, space, remotes, outcomes, |remotes|);
    assert ids[..|remotes|] == ids;
    ClaimedAll(p0, ids);
    FinishAgain(PassOver(tabs, m, space, remotes, outcomes), tabs, remotes);
  }

  lemma FinishAgain(p: Pass, tabs: Tabs, remotes: seq<RemoteTab>)
    requires Distinct(Ids(tabs.tabs)) && tabs.active in Ids(tabs.tabs) && tabs.active >= 0
    requires p.tabs == tabs && p.claimed == Elements(Ids(tabs.tabs)) && p.ordered == Ids(tabs.tabs) && p.ok
    ensures FinishPass(p, tabs.active, remotes) == (tabs, true)
  {
    InElements(Ids(tabs.tabs));
    forall i | 0 <= i < |tabs.tabs| ensures tabs.tabs[i].id in p.claimed {
      assert Ids(tabs.tabs)[i] in Ids(tabs.tabs);
    }
    NothingUnclaimed(tabs.tabs, p.claimed);
    SameOrder(tabs);
    hide Reorder;
    hide Unclaimed;
    hide Elements;
    hide ActiveTab;
    assert CloseEach(tabs, []) == tabs;
    hide CloseEach;
  }

  lemma ClaimedAll(p: Pass, ids: seq<int>)
    requires p.claimed == {} && p.ordered == []
    ensures Claimed(p, ids).claimed == Elements(ids) && Claimed(p, ids).ordered == ids
  {
    hide Elements;
  }

  /// The layouts of all tabs of the Spaces named are in place.
  ghost predicate AllLaidOut(t: Topology, snap: seq<RemoteSpace>, outcomes: Outcomes) {
    forall i, n, j :: (0 <= i < |snap| && 0 <= n < |t.session.spaces| && snap[i].id in t.spaceMap
                       && t.session.spaces[n].id == t.spaceMap[snap[i].id]
                       && 0 <= j < |t.session.spaces[n].tabs.tabs|) ==>
      outcomes(i)(j) == Alike(t.session.spaces[n].tabs.tabs[j].panes)
  }

  lemma AgainSpace(t: Topology, snap: seq<RemoteSpace>, k: nat, outcomes: Outcomes)
    requires k < |snap| && Converged(t, snap[k]) && AllLaidOut(t, snap, outcomes) && SpacesOk(t.session)
    ensures ApplySpace(t, snap[k], outcomes(k)) == (t, true)
  {
    hide PassOver;
    hide FinishPass;
    var i := IndexOfSpace(t.session.spaces, t.spaceMap[snap[k].id]).value;
    var space := t.session.spaces[i];
    hide IndexOfSpace;
    hide TabsOk;
    assert Matches(space.tabs.tabs, snap[k].tabs, t.tabMap, space.id) && OneActive(space.tabs);
    assert InPlace(space.tabs, snap[k].tabs, outcomes(k));
    hide InPlace;
    hide Matches;
    hide AllLaidOut;
    AgainFinishes(space.tabs, t.tabMap, space.id, snap[k].tabs, outcomes(k));
    assert WithTabs(t.session, i, space.tabs) == t.session by {
      assert t.session.spaces[i := space] == t.session.spaces;
    }
  }

  lemma {:induction false} AgainEach(t: Topology, snap: seq<RemoteSpace>, k: nat, outcomes: Outcomes)
    requires k <= |snap| && AllLaidOut(t, snap, outcomes) && SpacesOk(t.session)
    requires forall i :: 0 <= i < |snap| ==> Converged(t, snap[i])
    ensures ApplyEach(t, snap, outcomes, k) == (t, true)
  {
    hide AllLaidOut;
    hide Converged;
    hide SpacesOk;
    hide ApplySpace;
    if k > 0 {
      AgainEach(t, snap, k - 1, outcomes);
      AgainSpace(t, snap, k - 1, outcomes);
    }
  }

  lemma {:induction false} NothingStale(s: Spaces, m: TabMap, live: set<string>, order: seq<string>)
    requires m.Keys <= live
    ensures SweepSession(s, m, live, order) == s
  {
    if order != [] {
      NothingStale(s, m, live, order[..|order| - 1]);
    }
  }

  /// Once every Space has converged and its layouts are in place, the tab phase of
  /// the same snapshot changes nothing at all.
  lemma AgainChangesNothing(t: Topology, snap: seq<RemoteSpace>, outcomes: Outcomes, order: seq<string>)
    requires SpacesOk(t.session) && Resolvable(t, snap) && t.tabMap.Keys <= LiveTabs(snap)
             && AllLaidOut(t, snap, outcomes)
    requires forall i :: 0 <= i < |snap| ==> Converged(t, snap[i])
    requires t.startup == "" || t.startup !in t.tabMap
    ensures ApplyTabs(t, snap, outcomes, order) == (t, true)
  {
    hide Resolvable;
    hide LiveTabs;
    hide AllLaidOut;
    hide Converged;
    hide SpacesOk;
    AgainEach(t, snap, |snap|, outcomes);
    NothingStale(t.session, t.tabMap, LiveTabs(snap), order);
    hide ApplyEach;
    hide SweepSession;
    assert (map r | r in t.tabMap && r in LiveTabs(snap) :: t.tabMap[r]) == t.tabMap;
  }

  /// Applying a snapshot and then applying it again: if the layouts are in place
  /// and no start-up tab is waiting, the second time changes nothing.
  lemma ApplyTwice(t: Topology, snap: seq<RemoteSpace>, outcomes: Outcomes, order: seq<string>,
                   home: string -> string, outcomes2: Outcomes, order2: seq<string>)
    requires TopologyOk(t) && Decoded(snap) && AtHome(snap, home) && Resolvable(t, snap)
    requires forall i :: 0 <= i < |snap| ==> RoomFor(t, snap[i])
    ensures var t' := ApplyTabs(t, snap, outcomes, order).0;
            AllLaidOut(t', snap, outcomes2) && (t'.startup == "" || t'.startup !in t'.tabMap) ==>
              ApplyTabs(t', snap, outcomes2, order2) == (t', true)
  {
    TabsDiffer(snap, home);
    assert UniqueSpaces(snap) && forall i :: 0 <= i < |snap| ==> |snap[i].tabs| > 0;
    hide UniqueSpaces;
    hide UniqueTabs;
    hide RoomFor;
    hide Converged;
    hide LiveTabs;
    hide AllLaidOut;
    hide EveryProjects;
    ApplyTabsConverges(t, snap, outcomes, order);
    ApplyTabsKeeps(t, snap, outcomes, order);
    TabsStayHome(t, snap, outcomes, order, home);
    var t' := ApplyTabs(t, snap, outcomes, order).0;
    hide ApplyTabs;
    hide Resolvable;
    hide NoneDangles;
    ConvergedResolves(t', snap, home);
    if AllLaidOut(t', snap, outcomes2) && (t'.startup == "" || t'.startup !in t'.tabMap) {
      OkSession(t');
      hide TopologyOk;
      AgainChangesNothing(t', snap, outcomes2, order2);
    }
  }

  lemma ConvergedResolves(t: Topology, snap: seq<RemoteSpace>, home: string -> string)
    requires EntriesHome(t, home) && AtHome(snap, home) && forall i :: 0 <= i < |snap| ==> Converged(t, snap[i])
    ensures Resolvable(t, snap)
  {
    hide SpaceIds;
    hide Matches;
    forall i | 0 <= i < |snap|
      ensures snap[i].id in t.spaceMap && t.spaceMap[snap[i].id] in SpaceIds(t.session.spaces)
    {
      assert Converged(t, snap[i]);
    }
  }
}
