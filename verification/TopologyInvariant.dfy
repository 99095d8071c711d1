/** The invariant of the maps from remote to local identities, kept by each pass
    over a Space and by the sweep of stale tabs. */
module TopologyInvariant {
  import opened Identifiers
  import opened SplitTrees
  import opened PaneModel
  import opened TabModel
  import opened TabControllers
  import opened TabLaws
  import opened SpaceModel
  import opened TopologyModel
  import opened TopologyLaws

  // ---------------------------------------------------------------------------
  // The invariant

  /// The two Space maps are each other's inverse, and name live local Spaces.
  ghost predicate SpacesBound(t: Topology) {
    && (forall r :: r in t.spaceMap ==> t.spaceMap[r] in t.localMap && t.localMap[t.spaceMap[r]] == r)
    && (forall l :: l in t.localMap ==> t.localMap[l] in t.spaceMap && t.spaceMap[t.localMap[l]] == l)
    && (forall r :: r in t.spaceMap ==> t.spaceMap[r] in SpaceIds(t.session.spaces))
  }

  /// Identifiers in tab entries were handed out: they are below the counters.
  ghost predicate Entered(s: Spaces, m: TabMap) {
    forall r :: r in m ==>
      && m[r].0 < s.next
      && forall i :: 0 <= i < |s.spaces| && s.spaces[i].id == m[r].0 ==> 0 <= m[r].1 < s.spaces[i].tabs.next
  }

  /// If the Space is live, so is the tab in it.
  ghost predicate Held(s: Spaces, entry: (int, int)) {
    forall i :: 0 <= i < |s.spaces| && s.spaces[i].id == entry.0 ==> entry.1 in Ids(s.spaces[i].tabs.tabs)
  }

  /// What holds between snapshots: the tab map is injective and no entry of a live
  /// Space dangles.
  ghost predicate TopologyOk(t: Topology) {
    && SpacesOk(t.session) && SpacesBound(t)
    && Unique(t.tabMap) && Entered(t.session, t.tabMap)
    && forall r :: r in t.tabMap ==> Held(t.session, t.tabMap[r])
  }

  /// Every entry names a live tab of a live Space.
  ghost predicate NoneDangles(t: Topology) {
    forall r :: r in t.tabMap ==> t.tabMap[r].0 in SpaceIds(t.session.spaces) && Held(t.session, t.tabMap[r])
  }

  // ---------------------------------------------------------------------------
  // One Space at a time

  /// Decoding a snapshot refuses a Space that is named twice.
  predicate UniqueSpaces(snap: seq<RemoteSpace>) {
    forall i, j :: 0 <= i < j < |snap| ==> snap[i].id != snap[j].id
  }

  ghost predicate HasTab(remote: RemoteSpace, r: string) {
    exists j :: 0 <= j < |remote.tabs| && remote.tabs[j].id == r
  }

  /// Entries of live remote tabs name live tabs, and an entry into the local Space
  /// of a remote one belongs to a tab of that remote Space.
  ghost predicate LiveHeld(t: Topology, snap: seq<RemoteSpace>) {
    && (forall r :: r in t.tabMap && r in LiveTabs(snap) ==>
        t.tabMap[r].0 in SpaceIds(t.session.spaces) && Held(t.session, t.tabMap[r]))
    && (forall r, i :: (r in t.tabMap && r in LiveTabs(snap) && 0 <= i < |snap|
                        && snap[i].id in t.spaceMap && t.spaceMap[snap[i].id] == t.tabMap[r].0) ==> HasTab(snap[i], r))
  }

  /// The state while the Spaces are passed over.
  ghost predicate Passing(t: Topology, snap: seq<RemoteSpace>) {
    && SpacesOk(t.session) && SpacesBound(t) && Unique(t.tabMap) && Entered(t.session, t.tabMap) && LiveHeld(t, snap)
  }

  /// Nothing but the tabs of one Space and the tab map has changed.
  ghost predicate OnlyTabs(t: Topology, t': Topology) {
    && t'.spaceMap == t.spaceMap && t'.localMap == t.localMap && t'.startup == t.startup
    && SpaceIds(t'.session.spaces) == SpaceIds(t.session.spaces)
    && t'.session.active == t.session.active && t'.session.next == t.session.next
  }

  lemma PassingStarts(t: Topology, snap: seq<RemoteSpace>)
    requires TopologyOk(t) && UniqueSpaces(snap) && Resolvable(t, snap)
    ensures Passing(t, snap)
  {
    hide SpacesOk;
    hide Entered;
    hide Held;
    hide SpaceIds;
    forall r | r in t.tabMap && r in LiveTabs(snap) ensures t.tabMap[r].0 in SpaceIds(t.session.spaces) {
      var i, j :| 0 <= i < |snap| && 0 <= j < |snap[i].tabs| && snap[i].tabs[j].id == r;
    }
    forall r, i | r in t.tabMap && r in LiveTabs(snap) && 0 <= i < |snap|
                  && snap[i].id in t.spaceMap && t.spaceMap[snap[i].id] == t.tabMap[r].0
      ensures HasTab(snap[i], r)
    {
      var k, j :| 0 <= k < |snap| && 0 <= j < |snap[k].tabs| && snap[k].tabs[j].id == r;
      assert t.spaceMap[snap[k].id] == t.spaceMap[snap[i].id];
      assert t.localMap[t.spaceMap[snap[k].id]] == snap[k].id;
    }
  }

  lemma SpaceAt(s: Spaces, i: nat, j: nat)
    requires SpacesOk(s) && i < |s.spaces| && j < |s.spaces| && s.spaces[i].id == s.spaces[j].id
    ensures i == j
  {
    hide TabsOk;
    assert SpaceIds(s.spaces)[i] == SpaceIds(s.spaces)[j];
  }

  /// The pass starts with everything reserved that must be.
  lemma PassStarts(t: Topology, i: nat)
    requires SpacesOk(t.session) && Unique(t.tabMap) && Entered(t.session, t.tabMap) && i < |t.session.spaces|
    ensures PassOk(StartPass(t.session.spaces[i].tabs, t.tabMap, t.session.spaces[i].id), t.session.spaces[i].id)
  {
    hide TabsOk;
  }

  lemma PassGrows(t: Topology, i: nat, remotes: seq<RemoteTab>, outcomes: nat -> Outcome)
    requires SpacesOk(t.session) && Unique(t.tabMap) && Entered(t.session, t.tabMap) && i < |t.session.spaces|
    ensures var space := t.session.spaces[i];
            var p, q := StartPass(space.tabs, t.tabMap, space.id),
              PassOver(space.tabs, t.tabMap, space.id, remotes, outcomes);
            && PassOk(q, space.id) && Grown(p, q, space.id)
            && (forall j ::
                0 <= j < |remotes| && remotes[j].id in q.tabMap && q.tabMap[remotes[j].id].0 == space.id ==>
                q.tabMap[remotes[j].id].1 in q.claimed)
            && (forall r :: r in q.tabMap && r !in p.tabMap ==> exists j :: 0 <= j < |remotes| && remotes[j].id == r)
  {
    hide PassOk;
    hide Grown;
    hide SpacesOk;
    hide Entered;
    hide PlaceAll;
    PassStarts(t, i);
    PlaceAllKeeps(StartPass(t.session.spaces[i].tabs, t.tabMap, t.session.spaces[i].id), t.session.spaces[i].id,
                  remotes, outcomes, |remotes|);
  }

  lemma EnteredStays(t: Topology, i: nat, q: Pass, tabs: Tabs)
    requires SpacesOk(t.session) && Entered(t.session, t.tabMap) && i < |t.session.spaces|
    requires var space := t.session.spaces[i];
             PassOk(q, space.id) && Grown(StartPass(space.tabs, t.tabMap, space.id), q, space.id)
    requires tabs.next == q.tabs.next
    ensures Entered(WithTabs(t.session, i, tabs), q.tabMap)
  {
    var s' := WithTabs(t.session, i, tabs);
    var id := t.session.spaces[i].id;
    hide TabsOk;
    forall r | r in q.tabMap
      ensures q.tabMap[r].0 < s'.next
      ensures forall k :: 0 <= k < |s'.spaces| && s'.spaces[k].id == q.tabMap[r].0 ==>
                0 <= q.tabMap[r].1 < s'.spaces[k].tabs.next
    {
      forall k | 0 <= k < |s'.spaces| && s'.spaces[k].id == q.tabMap[r].0
        ensures 0 <= q.tabMap[r].1 < s'.spaces[k].tabs.next
      {
        if q.tabMap[r].0 == id { SpaceAt(t.session, k, i); }
      }
    }
  }

  /// Entries of live remote tabs survive the pass over one Space.
  lemma HeldStays(t: Topology, snap: seq<RemoteSpace>, k: nat, i: nat, q: Pass, tabs: Tabs)
    requires Passing(t, snap) && k < |snap| && i < |t.session.spaces|
    requires snap[k].id in t.spaceMap && t.spaceMap[snap[k].id] == t.session.spaces[i].id
    requires var space := t.session.spaces[i];
             && Grown(StartPass(space.tabs, t.tabMap, space.id), q, space.id)
             && (forall j :: 0 <= j < |snap[k].tabs| && snap[k].tabs[j].id in q.tabMap ==>
                   q.tabMap[snap[k].tabs[j].id].0 == space.id ==> q.tabMap[snap[k].tabs[j].id].1 in q.claimed)
             && (forall r :: r in q.tabMap && r !in t.tabMap ==>
                 exists j :: 0 <= j < |snap[k].tabs| && snap[k].tabs[j].id == r)
    requires forall x :: x in Ids(q.tabs.tabs) && x in q.claimed ==> x in Ids(tabs.tabs)
    ensures forall r :: r in q.tabMap && r in LiveTabs(snap) ==>
              q.tabMap[r].0 in SpaceIds(t.session.spaces) && Held(WithTabs(t.session, i, tabs), q.tabMap[r])
  {
    hide LiveTabs;
    hide Unique;
    hide Entered;
    hide SpacesBound;
    var id := t.session.spaces[i].id;
    assert SpaceIds(t.session.spaces)[i] == id;
    forall r | r in q.tabMap && r in LiveTabs(snap)
      ensures q.tabMap[r].0 in SpaceIds(t.session.spaces) && Held(WithTabs(t.session, i, tabs), q.tabMap[r])
    {
      HeldEntry(t, snap, k, i, q, tabs, r);
    }
  }

  lemma HeldEntry(t: Topology, snap: seq<RemoteSpace>, k: nat, i: nat, q: Pass, tabs: Tabs, r: string)
    requires SpacesOk(t.session) && LiveHeld(t, snap) && k < |snap| && i < |t.session.spaces|
    requires snap[k].id in t.spaceMap && t.spaceMap[snap[k].id] == t.session.spaces[i].id
    requires var space := t.session.spaces[i];
             && Grown(StartPass(space.tabs, t.tabMap, space.id), q, space.id)
             && (forall j :: 0 <= j < |snap[k].tabs| && snap[k].tabs[j].id in q.tabMap ==>
                   q.tabMap[snap[k].tabs[j].id].0 == space.id ==> q.tabMap[snap[k].tabs[j].id].1 in q.claimed)
             && (forall r :: r in q.tabMap && r !in t.tabMap ==>
                 exists j :: 0 <= j < |snap[k].tabs| && snap[k].tabs[j].id == r)
    requires forall x :: x in Ids(q.tabs.tabs) && x in q.claimed ==> x in Ids(tabs.tabs)
    requires r in q.tabMap && r in LiveTabs(snap)
    ensures q.tabMap[r].0 in SpaceIds(t.session.spaces) && Held(WithTabs(t.session, i, tabs), q.tabMap[r])
  {
    hide TabsOk;
    hide LiveTabs;
    var id := t.session.spaces[i].id;
    assert SpaceIds(t.session.spaces)[i] == id;
    if q.tabMap[r].0 == id {
      assert r in t.tabMap ==> HasTab(snap[k], r);
      var j :| 0 <= j < |snap[k].tabs| && snap[k].tabs[j].id == r;
      assert q.tabMap[r].1 in q.claimed;
      assert q.tabMap[r].1 in Ids(q.tabs.tabs);
      assert q.tabMap[r].1 in Ids(tabs.tabs);
      forall n | 0 <= n < |t.session.spaces| && t.session.spaces[n].id == id
        ensures n == i { SpaceAt(t.session, n, i); }
    }
  }

  /// A new entry of a live remote tab belongs to the Space just passed over.
  lemma OwnersStay(t: Topology, snap: seq<RemoteSpace>, k: nat, i: nat, q: Pass)
    requires SpacesBound(t) && LiveHeld(t, snap) && UniqueSpaces(snap) && k < |snap| && i < |t.session.spaces|
    requires snap[k].id in t.spaceMap && t.spaceMap[snap[k].id] == t.session.spaces[i].id
    requires var space := t.session.spaces[i];
             && Grown(StartPass(space.tabs, t.tabMap, space.id), q, space.id)
             && (forall r :: r in q.tabMap && r !in t.tabMap ==>
                 exists j :: 0 <= j < |snap[k].tabs| && snap[k].tabs[j].id == r)
    ensures forall r, n :: (r in q.tabMap && r in LiveTabs(snap) && 0 <= n < |snap|
                            && snap[n].id in t.spaceMap && t.spaceMap[snap[n].id] == q.tabMap[r].0) ==>
                              HasTab(snap[n], r)
  {
    hide LiveTabs;
    hide Held;
    hide SpaceIds;
    hide Ids;
    forall r, n | r in q.tabMap && r in LiveTabs(snap) && 0 <= n < |snap|
                  && snap[n].id in t.spaceMap && t.spaceMap[snap[n].id] == q.tabMap[r].0
      ensures HasTab(snap[n], r)
    {
      if r !in t.tabMap {
        assert q.tabMap[r].0 == t.session.spaces[i].id;
        assert t.localMap[t.spaceMap[snap[n].id]] == t.localMap[t.spaceMap[snap[k].id]];
        assert snap[n].id == snap[k].id && n == k;
      }
    }
  }

  lemma ApplySpaceKeeps(t: Topology, snap: seq<RemoteSpace>, k: nat, outcomes: nat -> Outcome)
    requires Passing(t, snap) && UniqueSpaces(snap) && k < |snap|
    ensures var t' := ApplySpace(t, snap[k], outcomes).0; Passing(t', snap) && OnlyTabs(t, t')
  {
    hide PassOk;
    hide Grown;
    hide PassOver;
    hide FinishPass;
    hide TabsOk;
    hide Unique;
    hide Entered;
    hide Held;
    hide LiveTabs;
    hide HasTab;
    hide IndexOfSpace;
    if snap[k].id in t.spaceMap && t.spaceMap[snap[k].id] in SpaceIds(t.session.spaces) {
      var i := IndexOfSpace(t.session.spaces, t.spaceMap[snap[k].id]).value;
      ApplyAt(t, snap, k, i, outcomes);
    }
  }

  lemma ApplyAt(t: Topology, snap: seq<RemoteSpace>, k: nat, i: nat, outcomes: nat -> Outcome)
    requires Passing(t, snap) && UniqueSpaces(snap) && k < |snap| && i < |t.session.spaces|
    requires snap[k].id in t.spaceMap && t.spaceMap[snap[k].id] == t.session.spaces[i].id
    ensures var space := t.session.spaces[i];
            var q := PassOver(space.tabs, t.tabMap, space.id, snap[k].tabs, outcomes);
            var t' := t.(session := WithTabs(t.session, i, FinishPass(q, space.tabs.active, snap[k].tabs).0),
                         tabMap := q.tabMap);
            Passing(t', snap) && OnlyTabs(t, t')
  {
    hide PassOver;
    hide FinishPass;
    hide TabsOk;
    hide Grown;
    hide LiveTabs;
    hide HasTab;
    hide Held;
    hide Entered;
    hide Unique;
    var space := t.session.spaces[i];
    var q := PassOver(space.tabs, t.tabMap, space.id, snap[k].tabs, outcomes);
    var tabs := FinishPass(q, space.tabs.active, snap[k].tabs).0;
    PassGrows(t, i, snap[k].tabs, outcomes);
    FinishKeeps(q, space.tabs.active, snap[k].tabs);
    EnteredStays(t, i, q, tabs);
    HeldStays(t, snap, k, i, q, tabs);
    OwnersStay(t, snap, k, i, q);
    assert Unique(q.tabMap);
    hide PassOk;
    SwappedOk(t.session, i, tabs);
    var t' := t.(session := WithTabs(t.session, i, tabs), tabMap := q.tabMap);
    hide SpacesOk;
    assert SpaceIds(t'.session.spaces) == SpaceIds(t.session.spaces);
    hide SpaceIds;
  }

  lemma {:induction false} ApplyEachKeeps(t: Topology, snap: seq<RemoteSpace>, outcomes: Outcomes, k: nat)
    requires Passing(t, snap) && UniqueSpaces(snap) && k <= |snap|
    ensures var t' := ApplyEach(t, snap, outcomes, k).0; Passing(t', snap) && OnlyTabs(t, t')
  {
    hide Passing;
    hide ApplySpace;
    hide UniqueSpaces;
    if k > 0 {
      ApplyEachKeeps(t, snap, outcomes, k - 1);
      ApplySpaceKeeps(ApplyEach(t, snap, outcomes, k - 1).0, snap, k - 1, outcomes(k - 1));
    }
  }

  // ---------------------------------------------------------------------------
  // The sweep of stale tabs

  /// Only tabs were closed, and none of those listed as kept.
  ghost predicate Swept(s: Spaces, s': Spaces, kept: set<(int, int)>) {
    && SpacesOk(s') && SpaceIds(s'.spaces) == SpaceIds(s.spaces) && s'.active == s.active && s'.next == s.next
    && forall i :: 0 <= i < |s.spaces| ==>
         && i < |s'.spaces| && s'.spaces[i].tabs.next == s.spaces[i].tabs.next
         && forall x :: x in Ids(s.spaces[i].tabs.tabs) && (s.spaces[i].id, x) in kept ==>
           x in Ids(s'.spaces[i].tabs.tabs)
  }

  lemma CloseInKeeps(s: Spaces, space: int, tab: int, kept: set<(int, int)>)
    requires SpacesOk(s) && (space, tab) !in kept
    ensures Swept(s, CloseIn(s, space, tab), kept)
  {
    hide TabsOk;
    hide IndexOfSpace;
    hide CloseTab;
    if space in SpaceIds(s.spaces) {
      var i := IndexOfSpace(s.spaces, space).value;
      CloseTabLaw(s.spaces[i].tabs, tab);
      SwappedOk(s, i, CloseTab(s.spaces[i].tabs, tab).0);
      assert SpaceIds(CloseIn(s, space, tab).spaces) == SpaceIds(s.spaces);
    }
  }

  lemma SweptTrans(a: Spaces, b: Spaces, c: Spaces, kept: set<(int, int)>)
    requires Swept(a, b, kept) && Swept(b, c, kept)
    ensures Swept(a, c, kept)
  {
    hide SpacesOk;
    hide Ids;
    forall i | 0 <= i < |a.spaces| ensures b.spaces[i].id == a.spaces[i].id {
      assert SpaceIds(a.spaces)[i] == SpaceIds(b.spaces)[i];
    }
  }

  /// The entries of live remote tabs.
  ghost function LiveEntries(m: TabMap, live: set<string>): set<(int, int)> {
    set r | r in m && r in live :: m[r]
  }

  /// The sweep never closes a tab that a live remote tab owns.
  lemma {:induction false} SweepKeepsLive(s: Spaces, m: TabMap, live: set<string>, order: seq<string>)
    requires SpacesOk(s) && Unique(m)
    ensures Swept(s, SweepSession(s, m, live, order), LiveEntries(m, live))
  {
    hide SpacesOk;
    hide CloseIn;
    hide Swept;
    if order == [] {
      SweptNone(s, LiveEntries(m, live));
    } else {
      SweepKeepsLive(s, m, live, order[..|order| - 1]);
      var before, r := SweepSession(s, m, live, order[..|order| - 1]), order[|order| - 1];
      if r !in live && r in m {
        assert m[r] !in LiveEntries(m, live);
        SweptOk(s, before, LiveEntries(m, live));
        CloseInKeeps(before, m[r].0, m[r].1, LiveEntries(m, live));
        SweptTrans(s, before, CloseIn(before, m[r].0, m[r].1), LiveEntries(m, live));
      }
    }
  }

  lemma SweptNone(s: Spaces, kept: set<(int, int)>)
    requires SpacesOk(s)
    ensures Swept(s, s, kept)
  {
    hide SpacesOk;
  }

  lemma SweptOk(s: Spaces, s': Spaces, kept: set<(int, int)>)
    requires Swept(s, s', kept)
    ensures SpacesOk(s')
  {}

  lemma SweepKeeps(t: Topology, snap: seq<RemoteSpace>, order: seq<string>)
    requires Passing(t, snap)
    ensures var t' := Sweep(t, LiveTabs(snap), order);
            TopologyOk(t') && NoneDangles(t') && t'.tabMap.Keys <= LiveTabs(snap)
  {
    hide LiveTabs;
    hide HasTab;
    hide SpacesOk;
    hide SweepSession;
    var live := LiveTabs(snap);
    SweepKeepsLive(t.session, t.tabMap, live, order);
    var t' := Sweep(t, live, order);
    forall i | 0 <= i < |t.session.spaces| ensures t'.session.spaces[i].id == t.session.spaces[i].id {
      assert SpaceIds(t.session.spaces)[i] == SpaceIds(t'.session.spaces)[i];
    }
    assert |t'.session.spaces| == |SpaceIds(t'.session.spaces)| == |t.session.spaces|;
    hide SpaceIds;
    forall r | r in t'.tabMap ensures Held(t'.session, t'.tabMap[r]) {
      assert t.tabMap[r] in LiveEntries(t.tabMap, live);
      assert Held(t.session, t.tabMap[r]);
    }
    hide Ids;
    assert Entered(t'.session, t'.tabMap);
  }
}
