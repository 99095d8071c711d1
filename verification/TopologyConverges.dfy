/** One snapshot is enough: whatever placeholder, restored or stale tabs a Space
    held, it ends with exactly the images of its remote tabs, in server order. */
module TopologyConverges {
  import opened Identifiers
  import opened SplitTrees
  import opened PaneModel
  import opened TabModel
  import opened TabControllers
  import opened TabLaws
  import opened SpaceModel
  import opened TopologyModel
  import opened TopologyLaws
  import opened TopologyInvariant
  import opened TopologyRuns

  // ---------------------------------------------------------------------------
  // One Space

  predicate UniqueRemotes(remotes: seq<RemoteTab>) {
    forall i, j :: 0 <= i < j < |remotes| ==> remotes[i].id != remotes[j].id
  }

  ghost predicate NamedAs(tabs: seq<Tab>, id: int, remote: RemoteTab) {
    forall i :: 0 <= i < |tabs| && tabs[i].id == id ==>
      tabs[i].name == remote.name && tabs[i].nameUserSet == remote.nameUserSet
  }

  ghost predicate AllProject(outcomes: nat -> Outcome, k: nat) {
    forall j :: 0 <= j < k ==> Projects(outcomes(j))
  }

  /// The state after the first k remote tabs found their local ones.
  ghost predicate Placed(p: Pass, space: int, remotes: seq<RemoteTab>, outcomes: nat -> Outcome, k: nat, next: int)
    requires k <= |remotes|
  {
    && PassOk(p, space) && |p.ordered| == k && p.tabs.next <= next + k
    && (forall j :: 0 <= j < k ==> remotes[j].id in p.tabMap && p.tabMap[remotes[j].id] == (space, p.ordered[j]))
    && (forall j :: 0 <= j < k ==> p.ordered[j] in Ids(p.tabs.tabs) && NamedAs(p.tabs.tabs, p.ordered[j], remotes[j]))
    && (forall x :: x in p.claimed <==> x in p.ordered)
    && (forall j :: k <= j < |remotes| && remotes[j].id in p.tabMap ==>
          p.tabMap[remotes[j].id].0 == space && p.tabMap[remotes[j].id].1 in Ids(p.tabs.tabs))
    && (p.ok <==> AllProject(outcomes, k))
  }

  /// Claiming a tab that no earlier remote tab has.
  lemma ClaimPlaces(p: Pass, space: int, remotes: seq<RemoteTab>, outcomes: nat -> Outcome, k: nat, next: int, id: int)
    requires k < |remotes| && Placed(p, space, remotes, outcomes, k, next + 1)
    requires remotes[k].id in p.tabMap && p.tabMap[remotes[k].id] == (space, id) && id in Ids(p.tabs.tabs)
    requires UniqueRemotes(remotes)
    ensures Placed(Claim(p, id, remotes[k], outcomes(k)), space, remotes, outcomes, k + 1, next)
  {
    hide PassOk;
    hide Ids;
    hide IndexOfTab;
    hide NamedAs;
    hide ProjectTab;
    hide AllProject;
    var q := Claim(p, id, remotes[k], outcomes(k));
    ClaimKeeps(p, space, id, remotes[k], outcomes(k));
    ClaimNames(p, space, remotes, outcomes, k, next, id);
    ClaimShape(p, id, remotes[k], outcomes(k));
    AllProjectStep(outcomes, k);
  }

  lemma ClaimShape(p: Pass, id: int, remote: RemoteTab, o: Outcome)
    requires id in Ids(p.tabs.tabs)
    ensures var q := Claim(p, id, remote, o);
            && q.ordered == p.ordered + [id] && q.claimed == p.claimed + {id} && q.tabMap == p.tabMap
            && Ids(q.tabs.tabs) == Ids(p.tabs.tabs) && q.tabs.next == p.tabs.next && (q.ok <==> p.ok && Projects(o))
  {
    ProjectTabLaw(p.tabs, id, remote, o);
  }

  lemma ClaimNames(p: Pass, space: int, remotes: seq<RemoteTab>, outcomes: nat -> Outcome, k: nat, next: int, id: int)
    requires k < |remotes| && Placed(p, space, remotes, outcomes, k, next + 1)
    requires remotes[k].id in p.tabMap && p.tabMap[remotes[k].id] == (space, id) && id in Ids(p.tabs.tabs)
    requires UniqueRemotes(remotes)
    ensures var q := Claim(p, id, remotes[k], outcomes(k));
            NamedAs(q.tabs.tabs, id, remotes[k]) && forall j :: 0 <= j < k ==>
              NamedAs(q.tabs.tabs, p.ordered[j], remotes[j])
  {
    hide PassOk;
    hide Ids;
    hide IndexOfTab;
    hide NamedAs;
    hide AllProject;
    var q := Claim(p, id, remotes[k], outcomes(k));
    ProjectTabLaw(p.tabs, id, remotes[k], outcomes(k));
    hide ProjectTab;
    NameSet(p.tabs, q.tabs, id, remotes[k], space, p);
    forall j | 0 <= j < k ensures NamedAs(q.tabs.tabs, p.ordered[j], remotes[j]) {
      assert remotes[j].id != remotes[k].id;
      DifferentTabs(p, space, remotes[j].id, remotes[k].id);
      NameStays(p.tabs.tabs, q.tabs.tabs, p.ordered[j], id, remotes[j]);
    }
  }

  lemma AllProjectStep(outcomes: nat -> Outcome, k: nat)
    ensures AllProject(outcomes, k + 1) <==> AllProject(outcomes, k) && Projects(outcomes(k))
  {}

  lemma DifferentTabs(p: Pass, space: int, a: string, b: string)
    requires PassOk(p, space) && a in p.tabMap && b in p.tabMap && a != b
    ensures p.tabMap[a] != p.tabMap[b]
  {}

  lemma NameStays(tabs: seq<Tab>, tabs': seq<Tab>, id: int, other: int, remote: RemoteTab)
    requires NamedAs(tabs, id, remote) && id != other && Ids(tabs') == Ids(tabs)
    requires forall i :: 0 <= i < |tabs| && tabs[i].id != other ==> i < |tabs'| && tabs'[i] == tabs[i]
    ensures NamedAs(tabs', id, remote)
  {
    assert |tabs'| == |Ids(tabs')| == |tabs|;
    forall i | 0 <= i < |tabs'| ensures tabs'[i].id == tabs[i].id { assert Ids(tabs')[i] == Ids(tabs)[i]; }
  }

  lemma NameSet(t: Tabs, t': Tabs, id: int, remote: RemoteTab, space: int, p: Pass)
    requires PassOk(p, space) && p.tabs == t && id in Ids(t.tabs) && Ids(t'.tabs) == Ids(t.tabs)
    requires IndexOfTab(t.tabs, id).value < |t'.tabs|
    requires var tab := t'.tabs[IndexOfTab(t.tabs, id).value];
             tab.name == remote.name && tab.nameUserSet == remote.nameUserSet
    ensures NamedAs(t'.tabs, id, remote)
  {
    hide IndexOfTab;
    var k := IndexOfTab(t.tabs, id).value;
    assert |t'.tabs| == |Ids(t'.tabs)| == |t.tabs|;
    forall i | 0 <= i < |t'.tabs| && t'.tabs[i].id == id ensures i == k {
      assert Ids(t'.tabs)[i] == Ids(t.tabs)[i] == id == Ids(t.tabs)[k];
      SameIndex(Ids(t.tabs), i, k);
    }
  }

  /// An unbound remote tab gets a local one while identifiers last.
  lemma AdoptPlaces(p: Pass, space: int, remotes: seq<RemoteTab>, outcomes: nat -> Outcome, k: nat, next: int)
    requires k < |remotes| && Placed(p, space, remotes, outcomes, k, next) && next + |remotes| <= LIMIT
    requires remotes[k].id !in p.tabMap && UniqueRemotes(remotes)
    ensures var (t', id) := Adopted(p);
            var q := p.(tabs := t', tabMap := p.tabMap[remotes[k].id := (space, id)], reserved := p.reserved + {id});
            id >= 0 && id in Ids(t'.tabs) && Placed(q, space, remotes, outcomes, k, next + 1)
  {
    hide TabsOk;
    hide Ids;
    hide Adopted;
    AdoptedLaw(p, space);
    NextIsNat(p, space);
    var (t', id) := Adopted(p);
    assert ValidIdentifier(p.tabs.next);
    assert id >= 0;
    BoundKeeps(p, space, remotes[k].id, t', id);
    forall j | 0 <= j < k ensures NamedAs(t'.tabs, p.ordered[j], remotes[j]) {
      NameKept(p.tabs.tabs, t'.tabs, p.ordered[j], remotes[j], t');
    }
    hide PassOk;
  }

  lemma NextIsNat(p: Pass, space: int)
    requires PassOk(p, space)
    ensures p.tabs.next >= 0
  {}

  lemma NameKept(tabs: seq<Tab>, tabs': seq<Tab>, id: int, remote: RemoteTab, t': Tabs)
    requires NamedAs(tabs, id, remote) && id in Ids(tabs) && TabsOk(t') && t'.tabs == tabs'
    requires tabs <= tabs'
    ensures NamedAs(tabs', id, remote)
  {
    hide IndexOfTab;
    var k := IndexOfTab(tabs, id).value;
    forall i | 0 <= i < |tabs'| && tabs'[i].id == id ensures i == k {
      assert Ids(tabs')[i] == Ids(tabs')[k];
      SameIndex(Ids(tabs'), i, k);
    }
  }

  lemma PlacePlaces(p: Pass, space: int, remotes: seq<RemoteTab>, outcomes: nat -> Outcome, k: nat, next: int)
    requires k < |remotes| && Placed(p, space, remotes, outcomes, k, next) && next + |remotes| <= LIMIT
             && UniqueRemotes(remotes)
    ensures Placed(Place(p, space, remotes[k], outcomes(k)), space, remotes, outcomes, k + 1, next)
  {
    hide PassOk;
    hide Ids;
    hide Claim;
    hide NamedAs;
    hide UniqueRemotes;
    hide AllProject;
    if remotes[k].id in p.tabMap {
      ClaimPlaces(p, space, remotes, outcomes, k, next, p.tabMap[remotes[k].id].1);
    } else {
      AdoptPlaces(p, space, remotes, outcomes, k, next);
      var (t', id) := Adopted(p);
      hide Adopted;
      var q := p.(tabs := t', tabMap := p.tabMap[remotes[k].id := (space, id)], reserved := p.reserved + {id});
      ClaimPlaces(q, space, remotes, outcomes, k, next, id);
      hide Placed;
    }
  }

  lemma {:induction false} AllPlaced(p: Pass, space: int, remotes: seq<RemoteTab>, outcomes: nat -> Outcome, k: nat)
    requires k <= |remotes| && Placed(p, space, remotes, outcomes, 0, p.tabs.next)
    requires p.tabs.next + |remotes| <= LIMIT && UniqueRemotes(remotes)
    ensures Placed(PlaceAll(p, space, remotes, outcomes, k), space, remotes, outcomes, k, p.tabs.next)
  {
    hide Placed;
    hide Place;
    hide UniqueRemotes;
    if k > 0 {
      AllPlaced(p, space, remotes, outcomes, k - 1);
      PlacePlaces(PlaceAll(p, space, remotes, outcomes, k - 1), space, remotes, outcomes, k - 1, p.tabs.next);
    }
  }

  /// As long as one tab stays, closing the others succeeds.
  lemma {:induction false} AllClosed(t: Tabs, ids: seq<int>, stays: int)
    requires TabsOk(t) && stays in Ids(t.tabs) && stays !in ids
    ensures forall x :: x in ids ==> x !in Ids(CloseEach(t, ids).tabs)
  {
    hide TabsOk;
    hide Ids;
    hide CloseTab;
    if ids != [] {
      var front, last := ids[..|ids| - 1], ids[|ids| - 1];
      AllClosed(t, front, stays);
      CloseEachLaw(t, front);
      var t1 := CloseEach(t, front);
      CloseTabLaw(t1, last);
      if last in Ids(t1.tabs) { TwoTabs(t1.tabs, last, stays); }
    }
  }

  lemma TwoTabs(tabs: seq<Tab>, a: int, b: int)
    requires a in Ids(tabs) && b in Ids(tabs) && a != b
    ensures |tabs| > 1
  {
    hide IndexOfTab;
    var i, j := IndexOfTab(tabs, a).value, IndexOfTab(tabs, b).value;
  }

  /// Tabs and remote tabs correspond, in order.
  ghost predicate Matches(tabs: seq<Tab>, remotes: seq<RemoteTab>, m: TabMap, space: int) {
    && |tabs| == |remotes|
    && forall j :: 0 <= j < |remotes| ==>
         && remotes[j].id in m && m[remotes[j].id] == (space, tabs[j].id)
         && tabs[j].name == remotes[j].name && tabs[j].nameUserSet == remotes[j].nameUserSet
  }

  lemma OrderedDistinct(p: Pass, space: int, remotes: seq<RemoteTab>, outcomes: nat -> Outcome, next: int)
    requires Placed(p, space, remotes, outcomes, |remotes|, next) && UniqueRemotes(remotes)
    ensures Distinct(p.ordered)
  {
    hide TabsOk;
    hide Ids;
    hide NamedAs;
    hide AllProject;
    forall i, j | 0 <= i < j < |p.ordered| ensures p.ordered[i] != p.ordered[j] {
      assert remotes[i].id != remotes[j].id;
    }
  }

  /// What closing the unclaimed tabs leaves is exactly the claimed ones.
  lemma ClosedToClaimed(p: Pass, space: int, remotes: seq<RemoteTab>, outcomes: nat -> Outcome, next: int)
    requires Placed(p, space, remotes, outcomes, |remotes|, next) && |remotes| > 0
    ensures var closed := CloseEach(p.tabs, Unclaimed(p.tabs.tabs, p.claimed));
            && TabsOk(closed) && Elements(p.ordered) == Elements(Ids(closed.tabs))
            && forall tab :: tab in closed.tabs ==> tab in p.tabs.tabs
  {
    hide TabsOk;
    hide Ids;
    hide NamedAs;
    hide CloseEach;
    hide Unclaimed;
    hide AllProject;
    var ids := Unclaimed(p.tabs.tabs, p.claimed);
    UnclaimedLaw(p.tabs.tabs, p.claimed);
    CloseEachLaw(p.tabs, ids);
    assert p.ordered[0] in p.claimed;
    AllClosed(p.tabs, ids, p.ordered[0]);
    var closed := CloseEach(p.tabs, ids);
    forall x ensures x in p.ordered <==> x in Ids(closed.tabs) {
      if x in p.ordered { var j :| 0 <= j < |p.ordered| && p.ordered[j] == x; assert x in Ids(p.tabs.tabs); }
    }
  }

  /// Finishing the pass: the reorder succeeds and the tabs match the remote ones.
  lemma FinishMatches(p: Pass, space: int, remotes: seq<RemoteTab>, outcomes: nat -> Outcome, next: int, active: int)
    requires Placed(p, space, remotes, outcomes, |remotes|, next) && |remotes| > 0 && UniqueRemotes(remotes)
    ensures var (t', ok) := FinishPass(p, active, remotes);
            Matches(t'.tabs, remotes, p.tabMap, space) && OneActive(t') && (ok <==> AllProject(outcomes, |remotes|))
  {
    hide TabsOk;
    hide Ids;
    hide NamedAs;
    hide CloseEach;
    hide Unclaimed;
    hide Reorder;
    hide Reactivate;
    hide AllProject;
    hide SameTabs;
    hide Elements;
    ClosedToClaimed(p, space, remotes, outcomes, next);
    OrderedDistinct(p, space, remotes, outcomes, next);
    var closed := CloseEach(p.tabs, Unclaimed(p.tabs.tabs, p.claimed));
    assert Distinct(Ids(closed.tabs)) by { OkIsDistinct(closed); }
    ReorderLaw(closed, p.ordered);
    ReorderOk(closed, p.ordered);
    var (ordered, moved) := Reorder(closed, p.ordered);
    ReactivateOk(ordered, p, active, remotes);
    assert remotes[0].id in p.tabMap && p.tabMap[remotes[0].id] == (space, p.ordered[0]);
    ReactivateActive(ordered, p, active, remotes);
    InOrder(p, space, remotes, outcomes, next, ordered.tabs);
  }

  lemma ReactivateActive(t: Tabs, p: Pass, active: int, remotes: seq<RemoteTab>)
    requires Ids(t.tabs) == p.ordered && (forall x :: x in p.claimed ==> x in p.ordered)
    requires remotes != [] && remotes[0].id in p.tabMap && p.tabMap[remotes[0].id].1 in p.ordered
    ensures OneActive(Reactivate(t, p, active, remotes))
  {
    hide Ids;
    hide IndexOfTab;
  }

  lemma OkIsDistinct(t: Tabs)
    requires TabsOk(t)
    ensures Distinct(Ids(t.tabs))
  {}

  lemma InOrder(p: Pass, space: int, remotes: seq<RemoteTab>, outcomes: nat -> Outcome, next: int, tabs: seq<Tab>)
    requires Placed(p, space, remotes, outcomes, |remotes|, next) && Ids(tabs) == p.ordered
    requires forall tab :: tab in tabs ==> tab in p.tabs.tabs
    ensures Matches(tabs, remotes, p.tabMap, space)
  {
    hide PassOk;
    hide AllProject;
    assert |tabs| == |Ids(tabs)| == |remotes|;
    forall j | 0 <= j < |remotes|
      ensures tabs[j].id == p.ordered[j] && tabs[j].name == remotes[j].name
              && tabs[j].nameUserSet == remotes[j].nameUserSet
    {
      assert Ids(tabs)[j] == tabs[j].id;
      assert tabs[j] in p.tabs.tabs;
      var i :| 0 <= i < |p.tabs.tabs| && p.tabs.tabs[i] == tabs[j];
      assert NamedAs(p.tabs.tabs, p.ordered[j], remotes[j]);
    }
  }

  // ---------------------------------------------------------------------------
  // All Spaces

  predicate UniqueTabs(snap: seq<RemoteSpace>) {
    forall i, j, k, l ::
      (0 <= i < |snap| && 0 <= j < |snap[i].tabs| && 0 <= k < |snap| && 0 <= l < |snap[k].tabs|
       && snap[i].tabs[j].id == snap[k].tabs[l].id) ==> i == k && j == l
  }

  /// The local Space of a remote one holds exactly the images of its tabs, in order,
  /// and one of them is active.
  ghost predicate Converged(t: Topology, remote: RemoteSpace) {
    && remote.id in t.spaceMap && t.spaceMap[remote.id] in SpaceIds(t.session.spaces)
    && forall i :: 0 <= i < |t.session.spaces| && t.session.spaces[i].id == t.spaceMap[remote.id] ==>
         && Matches(t.session.spaces[i].tabs.tabs, remote.tabs, t.tabMap, t.spaceMap[remote.id])
         && OneActive(t.session.spaces[i].tabs)
  }

  predicate OneActive(tabs: Tabs) {
    tabs.active in Ids(tabs.tabs)
  }

  /// Identifiers suffice for the tabs of the Space.
  ghost predicate RoomFor(t: Topology, remote: RemoteSpace) {
    remote.id in t.spaceMap ==>
      forall i :: 0 <= i < |t.session.spaces| && t.session.spaces[i].id == t.spaceMap[remote.id] ==>
        t.session.spaces[i].tabs.next + |remote.tabs| <= LIMIT
  }

  /// The first k Spaces have converged and there is room for the others.
  ghost predicate Converging(t: Topology, snap: seq<RemoteSpace>, k: nat)
    requires k <= |snap|
  {
    && Resolvable(t, snap)
    && (forall i :: 0 <= i < k ==> Converged(t, snap[i]))
    && (forall i :: k <= i < |snap| ==> RoomFor(t, snap[i]))
  }

  lemma StartPlaced(t: Topology, snap: seq<RemoteSpace>, k: nat, i: nat, outcomes: nat -> Outcome)
    requires Passing(t, snap) && Resolvable(t, snap) && k < |snap| && i < |t.session.spaces|
    requires t.spaceMap[snap[k].id] == t.session.spaces[i].id
    ensures var space := t.session.spaces[i];
            Placed(StartPass(space.tabs, t.tabMap, space.id), space.id, snap[k].tabs, outcomes, 0, space.tabs.next)
  {
    hide SpacesOk;
    hide Entered;
    hide Unique;
    hide SpacesBound;
    hide PassOk;
    hide HasTab;
    PassStarts(t, i);
    forall j | 0 <= j < |snap[k].tabs| && snap[k].tabs[j].id in t.tabMap
      ensures t.tabMap[snap[k].tabs[j].id].0 == t.session.spaces[i].id
              && t.tabMap[snap[k].tabs[j].id].1 in Ids(t.session.spaces[i].tabs.tabs)
    {
      assert snap[k].tabs[j].id in LiveTabs(snap);
      assert Held(t.session, t.tabMap[snap[k].tabs[j].id]);
    }
  }

  lemma RemotesUnique(snap: seq<RemoteSpace>, k: nat)
    requires UniqueTabs(snap) && k < |snap|
    ensures UniqueRemotes(snap[k].tabs)
  {}

  lemma SpaceConverges(t: Topology, snap: seq<RemoteSpace>, k: nat, i: nat, outcomes: nat -> Outcome)
    requires Passing(t, snap) && Resolvable(t, snap) && UniqueTabs(snap) && k < |snap| && |snap[k].tabs| > 0
             && i < |t.session.spaces|
    requires t.spaceMap[snap[k].id] == t.session.spaces[i].id
    requires t.session.spaces[i].tabs.next + |snap[k].tabs| <= LIMIT
    ensures var space := t.session.spaces[i];
            var q := PassOver(space.tabs, t.tabMap, space.id, snap[k].tabs, outcomes);
            var (tabs, ok) := FinishPass(q, space.tabs.active, snap[k].tabs);
            Matches(tabs.tabs, snap[k].tabs, q.tabMap, space.id) && OneActive(tabs)
              && (ok <==> AllProject(outcomes, |snap[k].tabs|))
  {
    hide Passing;
    hide Placed;
    hide PlaceAll;
    hide FinishPass;
    hide UniqueTabs;
    hide UniqueRemotes;
    hide Matches;
    hide AllProject;
    var space := t.session.spaces[i];
    StartPlaced(t, snap, k, i, outcomes);
    RemotesUnique(snap, k);
    AllPlaced(StartPass(space.tabs, t.tabMap, space.id), space.id, snap[k].tabs, outcomes, |snap[k].tabs|);
    FinishMatches(PassOver(space.tabs, t.tabMap, space.id, snap[k].tabs, outcomes), space.id, snap[k].tabs, outcomes,
                  space.tabs.next, space.tabs.active);
  }

  /// What one pass does to the rest of the topology.
  ghost predicate PassedAt(t: Topology, t': Topology, i: nat, remotes: seq<RemoteTab>) {
    && i < |t.session.spaces| && OnlyTabs(t, t')
    && (forall n :: 0 <= n < |t.session.spaces| && n != i ==>
        n < |t'.session.spaces| && t'.session.spaces[n] == t.session.spaces[n])
    && (forall r :: r in t.tabMap ==> r in t'.tabMap && t'.tabMap[r] == t.tabMap[r])
    && (forall r :: r in t'.tabMap && r !in t.tabMap ==>
          t'.tabMap[r].0 == t.session.spaces[i].id && exists j :: 0 <= j < |remotes| && remotes[j].id == r)
  }

  lemma ApplyIsPass(t: Topology, snap: seq<RemoteSpace>, k: nat, i: nat, outcomes: nat -> Outcome)
    requires Passing(t, snap) && UniqueSpaces(snap) && k < |snap| && i < |t.session.spaces|
    requires snap[k].id in t.spaceMap && t.spaceMap[snap[k].id] == t.session.spaces[i].id
    ensures var space := t.session.spaces[i];
            var q := PassOver(space.tabs, t.tabMap, space.id, snap[k].tabs, outcomes);
            var (tabs, ok) := FinishPass(q, space.tabs.active, snap[k].tabs);
            ApplySpace(t, snap[k], outcomes) == (t.(session := WithTabs(t.session, i, tabs), tabMap := q.tabMap), ok)
    ensures PassedAt(t, ApplySpace(t, snap[k], outcomes).0, i, snap[k].tabs)
  {
    hide PassOver;
    hide FinishPass;
    hide TabsOk;
    hide SpacesBound;
    hide Entered;
    hide Unique;
    hide Held;
    hide LiveTabs;
    hide HasTab;
    hide PassOk;
    hide Ids;
    assert SpaceIds(t.session.spaces)[i] == t.session.spaces[i].id;
    SpaceAt(t.session, i, IndexOfSpace(t.session.spaces, t.spaceMap[snap[k].id]).value);
    hide IndexOfSpace;
    PassGrows(t, i, snap[k].tabs, outcomes);
    hide SpacesOk;
    assert SpaceIds(ApplySpace(t, snap[k], outcomes).0.session.spaces) == SpaceIds(t.session.spaces);
  }

  lemma ResolvableStays(t: Topology, t': Topology, snap: seq<RemoteSpace>, k: nat, i: nat)
    requires Resolvable(t, snap) && UniqueTabs(snap) && k < |snap| && PassedAt(t, t', i, snap[k].tabs)
    requires t.spaceMap[snap[k].id] == t.session.spaces[i].id
    ensures Resolvable(t', snap)
  {
    hide SpaceIds;
    forall n, j | 0 <= n < |snap| && 0 <= j < |snap[n].tabs| && snap[n].tabs[j].id in t'.tabMap
      ensures t'.tabMap[snap[n].tabs[j].id].0 == t'.spaceMap[snap[n].id]
    {
      var r := snap[n].tabs[j].id;
      if r !in t.tabMap {
        var l :| 0 <= l < |snap[k].tabs| && snap[k].tabs[l].id == r;
        assert n == k;
      }
    }
  }

  lemma OtherSpaces(t: Topology, snap: seq<RemoteSpace>, k: nat, n: nat)
    requires SpacesBound(t) && UniqueSpaces(snap) && k < |snap| && n < |snap| && n != k
    requires snap[k].id in t.spaceMap && snap[n].id in t.spaceMap
    ensures t.spaceMap[snap[n].id] != t.spaceMap[snap[k].id]
  {
    hide SpaceIds;
    assert snap[n].id != snap[k].id;
  }

  /// Spaces already converged stay so, and room for the others stays.
  lemma OthersStay(t: Topology, t': Topology, remote: RemoteSpace, i: nat, remotes: seq<RemoteTab>)
    requires PassedAt(t, t', i, remotes) && remote.id in t.spaceMap && t.spaceMap[remote.id] != t.session.spaces[i].id
    ensures Converged(t, remote) ==> Converged(t', remote)
    ensures RoomFor(t, remote) ==> RoomFor(t', remote)
  {
    assert |t'.session.spaces| == |SpaceIds(t'.session.spaces)| == |SpaceIds(t.session.spaces)| == |t.session.spaces|;
    assert t'.session.spaces[i].id == SpaceIds(t'.session.spaces)[i] == SpaceIds(t.session.spaces)[i] ==
      t.session.spaces[i].id;
    hide SpaceIds;
    if Converged(t, remote) {
      forall n | 0 <= n < |t'.session.spaces| && t'.session.spaces[n].id == t'.spaceMap[remote.id]
        ensures Matches(t'.session.spaces[n].tabs.tabs, remote.tabs, t'.tabMap, t'.spaceMap[remote.id])
        ensures OneActive(t'.session.spaces[n].tabs)
      {
        assert t'.session.spaces[n] == t.session.spaces[n];
        assert Matches(t.session.spaces[n].tabs.tabs, remote.tabs, t.tabMap, t.spaceMap[remote.id]);
      }
    }
  }

  lemma ConvergeStep(t: Topology, snap: seq<RemoteSpace>, k: nat, outcomes: nat -> Outcome)
    requires Passing(t, snap) && UniqueSpaces(snap) && UniqueTabs(snap) && k < |snap| && |snap[k].tabs| > 0
    requires Converging(t, snap, k)
    ensures var (t', ok) := ApplySpace(t, snap[k], outcomes);
            Converging(t', snap, k + 1) && (ok <==> AllProject(outcomes, |snap[k].tabs|))
  {
    hide Passing;
    hide UniqueSpaces;
    hide UniqueTabs;
    hide ApplySpace;
    hide PassOver;
    hide FinishPass;
    hide Matches;
    hide AllProject;
    hide PassedAt;
    var i := IndexOfSpace(t.session.spaces, t.spaceMap[snap[k].id]).value;
    hide IndexOfSpace;
    ApplyIsPass(t, snap, k, i, outcomes);
    SpaceConverges(t, snap, k, i, outcomes);
    var (t', ok) := ApplySpace(t, snap[k], outcomes);
    ResolvableStays(t, t', snap, k, i);
    OnlyHere(t, snap, k, i, t');
    forall n | 0 <= n < |snap| && n != k
      ensures Converged(t, snap[n]) ==> Converged(t', snap[n])
      ensures RoomFor(t, snap[n]) ==> RoomFor(t', snap[n])
    {
      assert SpacesBound(t) by { PassingBound(t, snap); }
      OtherSpaces(t, snap, k, n);
      OthersStay(t, t', snap[n], i, snap[k].tabs);
    }
  }

  lemma PassingBound(t: Topology, snap: seq<RemoteSpace>)
    requires Passing(t, snap)
    ensures SpacesBound(t)
  {}

  lemma OnlyHere(t: Topology, snap: seq<RemoteSpace>, k: nat, i: nat, t': Topology)
    requires Passing(t, snap) && k < |snap| && PassedAt(t, t', i, snap[k].tabs) && snap[k].id in t.spaceMap
    requires t.spaceMap[snap[k].id] == t.session.spaces[i].id && i < |t'.session.spaces|
    requires Matches(t'.session.spaces[i].tabs.tabs, snap[k].tabs, t'.tabMap, t.session.spaces[i].id)
    requires OneActive(t'.session.spaces[i].tabs)
    ensures Converged(t', snap[k])
  {
    hide Matches;
    hide OneActive;
    hide TabsOk;
    hide LiveHeld;
    hide Entered;
    hide Unique;
    forall n | 0 <= n < |t'.session.spaces| && t'.session.spaces[n].id == t'.spaceMap[snap[k].id] ensures n == i {
      assert SpaceIds(t'.session.spaces)[n] == SpaceIds(t.session.spaces)[n];
      SpaceAt(t.session, n, i);
    }
  }

  ghost predicate EveryProjects(snap: seq<RemoteSpace>, outcomes: Outcomes, k: nat)
    requires k <= |snap|
  {
    forall i :: 0 <= i < k ==> AllProject(outcomes(i), |snap[i].tabs|)
  }

  lemma {:induction false} EachConverges(t: Topology, snap: seq<RemoteSpace>, outcomes: Outcomes, k: nat)
    requires Passing(t, snap) && UniqueSpaces(snap) && UniqueTabs(snap) && k <= |snap|
    requires (forall i :: 0 <= i < |snap| ==> |snap[i].tabs| > 0) && Converging(t, snap, 0)
    ensures var (t', ok) := ApplyEach(t, snap, outcomes, k);
            Converging(t', snap, k) && (ok <==> EveryProjects(snap, outcomes, k))
  {
    hide Passing;
    hide UniqueSpaces;
    hide UniqueTabs;
    hide ApplySpace;
    hide Converging;
    hide AllProject;
    if k > 0 {
      EachConverges(t, snap, outcomes, k - 1);
      ApplyEachKeeps(t, snap, outcomes, k - 1);
      ConvergeStep(ApplyEach(t, snap, outcomes, k - 1).0, snap, k - 1, outcomes(k - 1));
    }
  }

  // ---------------------------------------------------------------------------
  // After the passes

  /// The sweep leaves a Space alone whose tabs all belong to live remote tabs.
  lemma {:induction false} SweepLeaves(s: Spaces, m: TabMap, live: set<string>, order: seq<string>, i: nat)
    requires SpacesOk(s) && Unique(m) && i < |s.spaces|
    requires forall x :: x in Ids(s.spaces[i].tabs.tabs) ==> (s.spaces[i].id, x) in LiveEntries(m, live)
    ensures var s' := SweepSession(s, m, live, order);
            i < |s'.spaces| && s'.spaces[i].id == s.spaces[i].id && s'.spaces[i].tabs == s.spaces[i].tabs
  {
    hide TabsOk;
    hide Ids;
    hide CloseTab;
    hide IndexOfSpace;
    if order != [] {
      var front, r := order[..|order| - 1], order[|order| - 1];
      SweepLeaves(s, m, live, front, i);
      SweepKeepsLive(s, m, live, front);
      var before := SweepSession(s, m, live, front);
      hide SweepSession;
      if r !in live && r in m && m[r].0 in SpaceIds(before.spaces) {
        hide LiveEntries;
        NotAmong(m, live, r);
        var n := IndexOfSpace(before.spaces, m[r].0).value;
        if n == i { NothingToClose(before.spaces[i].tabs, m[r].1); }
      }
    }
  }

  lemma NotAmong(m: TabMap, live: set<string>, r: string)
    requires Unique(m) && r in m && r !in live
    ensures m[r] !in LiveEntries(m, live)
  {}

  lemma NothingToClose(t: Tabs, id: int)
    requires id !in Ids(t.tabs)
    ensures CloseTab(t, id) == (t, false)
  {}

  /// A converged Space owns nothing but entries of live remote tabs.
  lemma ConvergedIsLive(t: Topology, snap: seq<RemoteSpace>, k: nat, i: nat)
    requires k < |snap| && Converged(t, snap[k]) && i < |t.session.spaces|
             && t.session.spaces[i].id == t.spaceMap[snap[k].id]
    ensures forall x :: x in Ids(t.session.spaces[i].tabs.tabs) ==>
              (t.session.spaces[i].id, x) in LiveEntries(t.tabMap, LiveTabs(snap))
  {
    hide SpaceIds;
    var tabs := t.session.spaces[i].tabs.tabs;
    forall x | x in Ids(tabs) ensures (t.session.spaces[i].id, x) in LiveEntries(t.tabMap, LiveTabs(snap)) {
      var j :| 0 <= j < |Ids(tabs)| && Ids(tabs)[j] == x;
      assert snap[k].tabs[j].id in LiveTabs(snap);
    }
  }

  lemma SweepKeepsConverged(t: Topology, snap: seq<RemoteSpace>, order: seq<string>, k: nat)
    requires Passing(t, snap) && k < |snap| && Converged(t, snap[k])
    ensures Converged(Sweep(t, LiveTabs(snap), order), snap[k])
  {
    hide LiveHeld;
    hide SpacesBound;
    hide Entered;
    hide TabsOk;
    hide SweepSession;
    var i := IndexOfSpace(t.session.spaces, t.spaceMap[snap[k].id]).value;
    hide IndexOfSpace;
    ConvergedIsLive(t, snap, k, i);
    SweepLeaves(t.session, t.tabMap, LiveTabs(snap), order, i);
    SweepKeepsLive(t.session, t.tabMap, LiveTabs(snap), order);
    var t' := Sweep(t, LiveTabs(snap), order);
    forall n | 0 <= n < |t'.session.spaces| && t'.session.spaces[n].id == t.spaceMap[snap[k].id] ensures n == i {
      SpaceAt(t'.session, n, i);
    }
    StillMatches(t, snap, k, i);
  }

  lemma StillMatches(t: Topology, snap: seq<RemoteSpace>, k: nat, i: nat)
    requires k < |snap| && Converged(t, snap[k]) && i < |t.session.spaces|
             && t.session.spaces[i].id == t.spaceMap[snap[k].id]
    ensures Matches(t.session.spaces[i].tabs.tabs, snap[k].tabs, map r | r in t.tabMap
                    && r in LiveTabs(snap) :: t.tabMap[r], t.spaceMap[snap[k].id])
  {
    hide SpaceIds;
    forall j | 0 <= j < |snap[k].tabs| ensures snap[k].tabs[j].id in LiveTabs(snap) {}
    hide LiveTabs;
    assert Matches(t.session.spaces[i].tabs.tabs, snap[k].tabs, t.tabMap, t.spaceMap[snap[k].id]);
  }

  lemma StructureConverged(t: Topology, t': Topology, remote: RemoteSpace)
    requires Converged(t, remote) && SameStructure(t.session, t'.session) && t'.spaceMap == t.spaceMap
             && t'.tabMap == t.tabMap
    requires |t'.session.spaces| == |t.session.spaces|
    requires forall n :: 0 <= n < |t.session.spaces| && OneActive(t.session.spaces[n].tabs) ==>
               OneActive(t'.session.spaces[n].tabs)
    ensures Converged(t', remote)
  {
    hide SpacesOk;
    hide Matches;
    hide OneActive;
    forall n | 0 <= n < |t'.session.spaces|
      ensures n < |t.session.spaces| && t'.session.spaces[n].id == t.session.spaces[n].id
    {
      assert SpaceIds(t'.session.spaces)[n] == SpaceIds(t.session.spaces)[n];
    }
  }

  /// Convergence: with identities that do not repeat and identifiers to spare, one
  /// application leaves every mapped Space with exactly the images of its remote
  /// tabs, named and ordered as the server says; it reports success exactly when
  /// every tab could be projected.
  lemma ApplyTabsConverges(t: Topology, snap: seq<RemoteSpace>, outcomes: Outcomes, order: seq<string>)
    requires TopologyOk(t) && Resolvable(t, snap) && UniqueSpaces(snap) && UniqueTabs(snap)
    requires forall i :: 0 <= i < |snap| ==> |snap[i].tabs| > 0 && RoomFor(t, snap[i])
    ensures var (t', ok) := ApplyTabs(t, snap, outcomes, order);
            && (ok <==> EveryProjects(snap, outcomes, |snap|))
            && forall i :: 0 <= i < |snap| ==> Converged(t', snap[i])
  {
    hide ApplyEach;
    hide Sweep;
    hide EnterStartup;
    hide UniqueSpaces;
    hide UniqueTabs;
    hide LiveTabs;
    hide Converged;
    hide RoomFor;
    hide AllProject;
    hide Resolvable;
    hide TopologyOk;
    hide NoneDangles;
    PassingStarts(t, snap);
    hide Passing;
    assert Converging(t, snap, 0);
    EachConverges(t, snap, outcomes, |snap|);
    ApplyEachKeeps(t, snap, outcomes, |snap|);
    var (t1, ok) := ApplyEach(t, snap, outcomes, |snap|);
    SweepKeeps(t1, snap, order);
    var t2 := Sweep(t1, LiveTabs(snap), order);
    OkSession(t2);
    EnterStartupKeeps(t2);
    StartupActive(t2);
    forall i | 0 <= i < |snap| ensures Converged(ApplyTabs(t, snap, outcomes, order).0, snap[i]) {
      SweepKeepsConverged(t1, snap, order, i);
      StructureConverged(t2, EnterStartup(t2), snap[i]);
    }
  }

  lemma StartupActive(t: Topology)
    ensures var s, s' := t.session, EnterStartup(t).session;
            && |s'.spaces| == |s.spaces|
            && forall n :: 0 <= n < |s.spaces| && OneActive(s.spaces[n].tabs) ==> OneActive(s'.spaces[n].tabs)
  {
    hide IndexOfSpace;
    if t.startup != "" && t.startup in t.tabMap && t.tabMap[t.startup].0 in SpaceIds(t.session.spaces) {
      var (space, tab) := t.tabMap[t.startup];
      var i := IndexOfSpace(t.session.spaces, space).value;
      ActivatedAlike(WithTabs(t.session, i, Activate(t.session.spaces[i].tabs, tab).0), space);
      hide ActivateSpace;
    }
  }

  lemma OkSession(t: Topology)
    requires TopologyOk(t)
    ensures SpacesOk(t.session)
  {}
}
