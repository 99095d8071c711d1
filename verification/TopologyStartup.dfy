/** Where the user is while snapshots arrive: the start-up tab is entered once, and
    otherwise an application leaves the active Space, and an active tab that the
    server still has, as they are. */
module TopologyStartup {
  import opened Identifiers
  import opened SplitTrees
  import opened PaneModel
  import opened TabModel
  import opened TabControllers
  import opened TabLaws
  import opened SpaceModel
  import opened TopologyModel
  import opened TopologyLaws
  import opened TopologyInvariant
  import opened TopologyRuns
  import opened TopologyConverges

  // ---------------------------------------------------------------------------
  // The start-up tab

  /// The entry is the place where the user is: its Space is the active one, and its
  /// tab the active one of that Space.
  ghost predicate UserAt(s: Spaces, place: (int, int)) {
    s.active == place.0 && Shows(s, place)
  }

  /// The entry is a Space and its active tab.
  ghost predicate Shows(s: Spaces, place: (int, int)) {
    && place.0 in SpaceIds(s.spaces)
    && forall n :: 0 <= n < |s.spaces| && s.spaces[n].id == place.0 ==> s.spaces[n].tabs.active == place.1
  }

  lemma SpacesKeepPlace(t: Topology, remote: RemoteSpace, outcomes: nat -> Outcome)
    ensures var t' := ApplySpace(t, remote, outcomes).0;
            t'.session.active == t.session.active && t'.startup == t.startup
  {
    hide PassOver;
    hide FinishPass;
    hide IndexOfSpace;
  }

  lemma {:induction false} EachKeepsPlace(t: Topology, snap: seq<RemoteSpace>, outcomes: Outcomes, k: nat)
    requires k <= |snap|
    ensures var t' := ApplyEach(t, snap, outcomes, k).0;
            t'.session.active == t.session.active && t'.startup == t.startup
  {
    hide ApplySpace;
    if k > 0 {
      EachKeepsPlace(t, snap, outcomes, k - 1);
      SpacesKeepPlace(ApplyEach(t, snap, outcomes, k - 1).0, snap[k - 1], outcomes(k - 1));
    }
  }

  lemma {:induction false} SweepKeepsPlace(s: Spaces, m: TabMap, live: set<string>, order: seq<string>)
    ensures SweepSession(s, m, live, order).active == s.active
  {
    hide CloseTab;
    hide IndexOfSpace;
    if order != [] {
      SweepKeepsPlace(s, m, live, order[..|order| - 1]);
    }
  }

  /// A waiting tab that is there is entered, and then waits no more.
  lemma EntersWaiting(t: Topology)
    requires SpacesOk(t.session) && t.startup != "" && t.startup in t.tabMap
    requires t.tabMap[t.startup].0 in SpaceIds(t.session.spaces) && Held(t.session, t.tabMap[t.startup])
    ensures var t' := EnterStartup(t); t'.startup == "" && UserAt(t'.session, t.tabMap[t.startup])
  {
    var (space, tab) := t.tabMap[t.startup];
    var i := IndexOfSpace(t.session.spaces, space).value;
    var tabs := t.session.spaces[i].tabs.(active := tab);
    assert Activate(t.session.spaces[i].tabs, tab) == (tabs, true);
    var s1 := WithTabs(t.session, i, tabs);
    StartupTab(t.session, i, tab);
    assert SpaceIds(s1.spaces) == SpaceIds(t.session.spaces);
    IndexByIds(t.session.spaces, s1.spaces, space);
    EnteredAt(s1, i, space);
    hide SpacesOk;
    hide ActivateSpace;
    hide Activate;
    hide SpaceIds;
  }

  /// A Space with an active tab can be entered; its active tab stays.
  lemma EnteredAt(s: Spaces, i: nat, id: int)
    requires SpacesOk(s) && i < |s.spaces| && s.spaces[i].id == id && ActiveTab(s.spaces[i].tabs).Some?
    ensures var (s', ok) := ActivateSpace(s, id); ok && UserAt(s', (id, s.spaces[i].tabs.active))
  {
    hide TabsOk;
    hide ActiveTab;
    assert SpaceIds(s.spaces)[i] == id;
    SpaceAt(s, i, IndexOfSpace(s.spaces, id).value);
    var s' := ActivateSpace(s, id).0;
    ActivatedAlike(s, id);
    assert SpaceIds(s'.spaces)[i] == id;
    forall n | 0 <= n < |s'.spaces| && s'.spaces[n].id == id ensures n == i {
      assert SpaceIds(s.spaces)[n] == id;
      SpaceAt(s, n, i);
    }
    hide SpaceIds;
  }

  lemma NotWaiting(t: Topology)
    requires t.startup == "" || t.startup !in t.tabMap
    ensures EnterStartup(t) == t
  {}

  /// An application that succeeds enters the start-up tab if the snapshot has it, and
  /// then none is waiting any more. In every other case the waiting tab and the active
  /// Space stay: when it fails, when no tab is waiting, and when the snapshot does not
  /// have it.
  lemma StartupOnce(t: Topology, snap: seq<RemoteSpace>, outcomes: Outcomes, order: seq<string>)
    requires TopologyOk(t) && UniqueSpaces(snap)
    ensures var (t', ok) := ApplyTabs(t, snap, outcomes, order);
            if ok && t.startup != "" && t.startup in t'.tabMap then
              t'.startup == "" && UserAt(t'.session, t'.tabMap[t.startup])
            else t'.startup == t.startup && t'.session.active == t.session.active
  {
    hide ApplyEach;
    hide SweepSession;
    hide EnterStartup;
    hide Resolvable;
    hide UniqueSpaces;
    hide LiveTabs;
    hide TopologyOk;
    hide Passing;
    hide SpacesOk;
    hide Held;
    hide UserAt;
    hide NoneDangles;
    if Resolvable(t, snap) {
      PassingStarts(t, snap);
      ApplyEachKeeps(t, snap, outcomes, |snap|);
      EachKeepsPlace(t, snap, outcomes, |snap|);
      var (t1, ok) := ApplyEach(t, snap, outcomes, |snap|);
      SweepKeeps(t1, snap, order);
      SweepKeepsPlace(t1.session, t1.tabMap, LiveTabs(snap), order);
      var t2 := Sweep(t1, LiveTabs(snap), order);
      OkSession(t2);
      EnterStartupKeeps(t2);
      if t2.startup != "" && t2.startup in t2.tabMap {
        Dangling(t2, t2.startup);
        EntersWaiting(t2);
      } else {
        NotWaiting(t2);
      }
    }
  }

  lemma Dangling(t: Topology, r: string)
    requires NoneDangles(t) && r in t.tabMap
    ensures t.tabMap[r].0 in SpaceIds(t.session.spaces) && Held(t.session, t.tabMap[r])
  {}

  /// With identities that do not repeat and identifiers to spare, the tab is entered
  /// exactly when the application succeeds and the snapshot has it.
  lemma StartupEntered(t: Topology, snap: seq<RemoteSpace>, outcomes: Outcomes, order: seq<string>)
    requires TopologyOk(t) && Resolvable(t, snap) && UniqueSpaces(snap) && UniqueTabs(snap)
    requires forall i :: 0 <= i < |snap| ==> |snap[i].tabs| > 0 && RoomFor(t, snap[i])
    requires t.startup != ""
    ensures var (t', ok) := ApplyTabs(t, snap, outcomes, order);
            if EveryProjects(snap, outcomes, |snap|) && t.startup in LiveTabs(snap) then
              t'.startup == "" && t.startup in t'.tabMap && UserAt(t'.session, t'.tabMap[t.startup])
            else t'.startup == t.startup && t'.session.active == t.session.active
  {
    hide ApplyTabs;
    hide TopologyOk;
    hide UserAt;
    hide Resolvable;
    hide UniqueSpaces;
    hide UniqueTabs;
    hide EveryProjects;
    hide Converged;
    hide RoomFor;
    hide NoneDangles;
    ApplyTabsConverges(t, snap, outcomes, order);
    ApplyTabsKeeps(t, snap, outcomes, order);
    StartupOnce(t, snap, outcomes, order);
    if t.startup in LiveTabs(snap) {
      var i, j :| 0 <= i < |snap| && 0 <= j < |snap[i].tabs| && snap[i].tabs[j].id == t.startup;
      ConvergedEntry(ApplyTabs(t, snap, outcomes, order).0, snap[i], j);
    }
  }

  lemma ConvergedEntry(t: Topology, remote: RemoteSpace, j: nat)
    requires Converged(t, remote) && j < |remote.tabs|
    ensures remote.tabs[j].id in t.tabMap && t.tabMap[remote.tabs[j].id].0 == t.spaceMap[remote.id]
  {
    hide SpaceIds;
    var n :| 0 <= n < |t.session.spaces| && t.session.spaces[n].id == t.spaceMap[remote.id];
    assert Matches(t.session.spaces[n].tabs.tabs, remote.tabs, t.tabMap, t.spaceMap[remote.id]);
  }

  // ---------------------------------------------------------------------------
  // The active tab of a Space

  /// Finding places for remote tabs moves no active tab, and claims every tab that a
  /// remote tab had before.
  lemma {:induction false} PlacingClaims(p: Pass, space: int, remotes: seq<RemoteTab>, outcomes: nat -> Outcome, k: nat)
    requires k <= |remotes|
    ensures var q := PlaceAll(p, space, remotes, outcomes, k);
            && q.tabs.active == p.tabs.active
            && (forall r :: r in p.tabMap ==> r in q.tabMap && q.tabMap[r] == p.tabMap[r])
            && (forall j :: 0 <= j < k && remotes[j].id in p.tabMap ==> p.tabMap[remotes[j].id].1 in q.claimed)
  {
    hide Place;
    if k > 0 {
      PlacingClaims(p, space, remotes, outcomes, k - 1);
      PlaceClaims(PlaceAll(p, space, remotes, outcomes, k - 1), space, remotes[k - 1], outcomes(k - 1));
    }
  }

  lemma PlaceClaims(p: Pass, space: int, remote: RemoteTab, o: Outcome)
    ensures var q := Place(p, space, remote, o);
            && q.tabs.active == p.tabs.active && p.claimed <= q.claimed
            && (forall r :: r in p.tabMap ==> r in q.tabMap && q.tabMap[r] == p.tabMap[r])
            && (remote.id in p.tabMap ==> p.tabMap[remote.id].1 in q.claimed)
  {
    hide IndexOfTab;
    hide FirstUnreserved;
    hide ProjectOn;
  }

  /// Closing other tabs moves no active tab.
  lemma {:induction false} ClosingOthers(t: Tabs, ids: seq<int>)
    requires t.active !in ids
    ensures CloseEach(t, ids).active == t.active
  {
    hide IndexOfTab;
    if ids != [] {
      ClosingOthers(t, ids[..|ids| - 1]);
    }
  }

  lemma {:induction false} ClaimedIsKept(tabs: seq<Tab>, claimed: set<int>, id: int)
    requires id in claimed
    ensures id !in Unclaimed(tabs, claimed)
  {
    if tabs != [] {
      ClaimedIsKept(tabs[..|tabs| - 1], claimed, id);
    }
  }

  /// A claimed tab that is active stays so.
  lemma FinishingStays(p: Pass, remotes: seq<RemoteTab>)
    requires p.tabs.active >= 0 && p.tabs.active in p.claimed
    ensures FinishPass(p, p.tabs.active, remotes).0.active == p.tabs.active
  {
    ClaimedIsKept(p.tabs.tabs, p.claimed, p.tabs.active);
    ClosingOthers(p.tabs, Unclaimed(p.tabs.tabs, p.claimed));
    hide CloseEach;
    hide Unclaimed;
    hide SameIds;
    hide ActiveTab;
  }

  /// When the active tab is not claimed, the tab that closing it made active stays so; if
  /// there is none, the first remote tab's one becomes active.
  lemma FinishingMoves(p: Pass, active: int, remotes: seq<RemoteTab>)
    requires TabsOk(p.tabs) && active !in p.claimed
    ensures var closed := CloseEach(p.tabs, Unclaimed(p.tabs.tabs, p.claimed));
            var t' := FinishPass(p, active, remotes).0;
            && (closed.active in Ids(closed.tabs) ==> t'.active == closed.active)
            && ((closed.active !in Ids(closed.tabs) && remotes != [] && remotes[0].id in p.tabMap
                 && p.tabMap[remotes[0].id].1 in Ids(closed.tabs)) ==> t'.active == p.tabMap[remotes[0].id].1)
  {
    var closed := CloseEach(p.tabs, Unclaimed(p.tabs.tabs, p.claimed));
    CloseEachLaw(p.tabs, Unclaimed(p.tabs.tabs, p.claimed));
    hide CloseEach;
    hide Unclaimed;
    hide TabsOk;
    ReorderOk(closed, p.ordered);
    assert Reorder(closed, p.ordered).0.active == closed.active;
    hide Reorder;
    hide IndexOfTab;
  }

  /// A pass over a Space leaves an active tab that the server still has.
  lemma SpaceShows(t: Topology, snap: seq<RemoteSpace>, k: nat, outcomes: nat -> Outcome, r: string)
    requires Passing(t, snap) && UniqueSpaces(snap) && k < |snap|
    requires r in t.tabMap && r in LiveTabs(snap) && Shows(t.session, t.tabMap[r])
    ensures var t' := ApplySpace(t, snap[k], outcomes).0;
            r in t'.tabMap && t'.tabMap[r] == t.tabMap[r] && Shows(t'.session, t.tabMap[r])
  {
    hide PassOver;
    hide FinishPass;
    hide TabsOk;
    hide LiveTabs;
    hide IndexOfSpace;
    hide UniqueSpaces;
    hide Passing;
    if snap[k].id in t.spaceMap && t.spaceMap[snap[k].id] in SpaceIds(t.session.spaces) {
      var i := IndexOfSpace(t.session.spaces, t.spaceMap[snap[k].id]).value;
      ApplyIsPass(t, snap, k, i, outcomes);
      var t' := ApplySpace(t, snap[k], outcomes).0;
      if t.session.spaces[i].id == t.tabMap[r].0 { PassShows(t, snap, k, i, outcomes, r); }
      hide ApplySpace;
      ShownAt(t, t', i, snap[k].tabs, t.tabMap[r]);
    }
  }

  lemma ShownAt(t: Topology, t': Topology, i: nat, remotes: seq<RemoteTab>, place: (int, int))
    requires PassedAt(t, t', i, remotes) && Shows(t.session, place)
    requires i < |t'.session.spaces|
    requires t.session.spaces[i].id == place.0 ==> t'.session.spaces[i].tabs.active == place.1
    ensures Shows(t'.session, place)
  {
    forall n | 0 <= n < |t'.session.spaces| && t'.session.spaces[n].id == place.0
      ensures t'.session.spaces[n].tabs.active == place.1
    {
      assert SpaceIds(t'.session.spaces)[n] == SpaceIds(t.session.spaces)[n];
    }
  }

  lemma PassShows(t: Topology, snap: seq<RemoteSpace>, k: nat, i: nat, outcomes: nat -> Outcome, r: string)
    requires Passing(t, snap) && UniqueSpaces(snap) && k < |snap| && i < |t.session.spaces|
    requires snap[k].id in t.spaceMap && t.spaceMap[snap[k].id] == t.session.spaces[i].id
    requires r in t.tabMap && r in LiveTabs(snap) && t.tabMap[r].0 == t.session.spaces[i].id
    requires t.session.spaces[i].tabs.active == t.tabMap[r].1
    ensures var space := t.session.spaces[i];
            var q := PassOver(space.tabs, t.tabMap, space.id, snap[k].tabs, outcomes);
            FinishPass(q, space.tabs.active, snap[k].tabs).0.active == t.tabMap[r].1
  {
    hide PlaceAll;
    hide FinishPass;
    hide LiveTabs;
    hide TabsOk;
    hide Held;
    hide SpacesBound;
    var space := t.session.spaces[i];
    assert HasTab(snap[k], r);
    PlacingClaims(StartPass(space.tabs, t.tabMap, space.id), space.id, snap[k].tabs, outcomes, |snap[k].tabs|);
    FinishingStays(PassOver(space.tabs, t.tabMap, space.id, snap[k].tabs, outcomes), snap[k].tabs);
  }

  lemma {:induction false} EachShows(t: Topology, snap: seq<RemoteSpace>, outcomes: Outcomes, k: nat, r: string)
    requires Passing(t, snap) && UniqueSpaces(snap) && k <= |snap|
    requires r in t.tabMap && r in LiveTabs(snap) && Shows(t.session, t.tabMap[r])
    ensures var t' := ApplyEach(t, snap, outcomes, k).0;
            r in t'.tabMap && t'.tabMap[r] == t.tabMap[r] && Shows(t'.session, t.tabMap[r])
  {
    hide Passing;
    hide ApplySpace;
    hide Shows;
    hide LiveTabs;
    hide UniqueSpaces;
    if k > 0 {
      EachShows(t, snap, outcomes, k - 1, r);
      ApplyEachKeeps(t, snap, outcomes, k - 1);
      SpaceShows(ApplyEach(t, snap, outcomes, k - 1).0, snap, k - 1, outcomes(k - 1), r);
    }
  }

  /// Sweeping stale tabs leaves an active tab that the server still has.
  lemma {:induction false} SweepShows(s: Spaces, m: TabMap, live: set<string>, order: seq<string>, r: string)
    requires Unique(m) && r in m && r in live && Shows(s, m[r])
    ensures Shows(SweepSession(s, m, live, order), m[r])
  {
    hide CloseIn;
    hide Shows;
    if order != [] {
      SweepShows(s, m, live, order[..|order| - 1], r);
      var x := order[|order| - 1];
      if x !in live && x in m {
        CloseInShows(SweepSession(s, m, live, order[..|order| - 1]), m[x].0, m[x].1, m[r]);
      }
    }
  }

  lemma CloseInShows(s: Spaces, space: int, tab: int, place: (int, int))
    requires Shows(s, place) && (space, tab) != place
    ensures Shows(CloseIn(s, space, tab), place)
  {
    hide IndexOfTab;
    hide IndexOfSpace;
    if space in SpaceIds(s.spaces) {
      assert SpaceIds(CloseIn(s, space, tab).spaces) == SpaceIds(s.spaces);
    }
  }

  /// Entering a Space moves no active tab.
  lemma EnteringAlike(s: Spaces, id: int)
    ensures var s' := ActivateSpace(s, id).0;
            && |s'.spaces| == |s.spaces|
            && forall n :: 0 <= n < |s.spaces| ==>
                 s'.spaces[n].id == s.spaces[n].id && s'.spaces[n].tabs.active == s.spaces[n].tabs.active
  {
    hide ActiveTab;
    hide IndexOfSpace;
  }

  lemma ShowsAlike(s: Spaces, s': Spaces, i: nat, place: (int, int))
    requires Shows(s, place) && |s'.spaces| == |s.spaces|
    requires forall n :: 0 <= n < |s.spaces| ==> s'.spaces[n].id == s.spaces[n].id
    requires forall n :: 0 <= n < |s.spaces| && n != i ==> s'.spaces[n].tabs.active == s.spaces[n].tabs.active
    requires i < |s.spaces| ==> s.spaces[i].id != place.0
    ensures Shows(s', place)
  {
    assert SpaceIds(s'.spaces) == SpaceIds(s.spaces);
  }

  /// Entering the start-up tab leaves the active tabs of the other Spaces.
  lemma EnteringElsewhere(t: Topology, place: (int, int))
    requires Shows(t.session, place)
    requires t.startup in t.tabMap ==> t.tabMap[t.startup].0 != place.0
    ensures Shows(EnterStartup(t).session, place)
  {
    hide ActivateSpace;
    hide IndexOfSpace;
    hide Activate;
    hide Shows;
    if t.startup != "" && t.startup in t.tabMap && t.tabMap[t.startup].0 in SpaceIds(t.session.spaces) {
      var (space, tab) := t.tabMap[t.startup];
      var i := IndexOfSpace(t.session.spaces, space).value;
      var s1 := WithTabs(t.session, i, Activate(t.session.spaces[i].tabs, tab).0);
      EnteringAlike(s1, space);
      ShowsAlike(t.session, ActivateSpace(s1, space).0, i, place);
    }
  }

  /// An active tab that the server still has stays active in its Space, whatever else
  /// the snapshot says and whether or not it can be applied, unless the start-up tab is
  /// entered in that very Space.
  lemma ActiveTabStays(t: Topology, snap: seq<RemoteSpace>, outcomes: Outcomes, order: seq<string>, r: string)
    requires TopologyOk(t) && UniqueSpaces(snap)
    requires r in t.tabMap && r in LiveTabs(snap) && Shows(t.session, t.tabMap[r])
    ensures var (t', ok) := ApplyTabs(t, snap, outcomes, order);
            && r in t'.tabMap && t'.tabMap[r] == t.tabMap[r]
            && if ok && t.startup != "" && t.startup in t'.tabMap && t'.tabMap[t.startup].0 == t.tabMap[r].0
               then Shows(t'.session, t'.tabMap[t.startup])
               else Shows(t'.session, t.tabMap[r])
  {
    hide ApplyEach;
    hide SweepSession;
    hide EnterStartup;
    hide Resolvable;
    hide UniqueSpaces;
    hide LiveTabs;
    hide TopologyOk;
    hide NoneDangles;
    hide Shows;
    hide SpacesOk;
    hide Passing;
    StartupOnce(t, snap, outcomes, order);
    if Resolvable(t, snap) {
      PassingStarts(t, snap);
      EachShows(t, snap, outcomes, |snap|, r);
      ApplyEachKeeps(t, snap, outcomes, |snap|);
      var (t1, ok) := ApplyEach(t, snap, outcomes, |snap|);
      PassingUnique(t1, snap);
      SweepShows(t1.session, t1.tabMap, LiveTabs(snap), order, r);
      SweepKeeps(t1, snap, order);
      var t2 := Sweep(t1, LiveTabs(snap), order);
      OkSession(t2);
      EnterStartupKeeps(t2);
      if t2.startup == "" { NotWaiting(t2); }
      else if t2.startup in t2.tabMap ==> t2.tabMap[t2.startup].0 != t.tabMap[r].0 {
        EnteringElsewhere(t2, t.tabMap[r]);
      }
    }
  }

  lemma PassingUnique(t: Topology, snap: seq<RemoteSpace>)
    requires Passing(t, snap)
    ensures Unique(t.tabMap)
  {}

  /// The active Space, the waiting tab and the active tab of each Space of the
  /// snapshot are the same.
  ghost predicate UserStays(t: Topology, t': Topology, snap: seq<RemoteSpace>) {
    && t'.session.active == t.session.active && t'.startup == t.startup
    && forall i, n :: (0 <= i < |snap| && snap[i].id in t.spaceMap && 0 <= n < |t.session.spaces|
                       && t.session.spaces[n].id == t.spaceMap[snap[i].id]) ==>
         Shows(t'.session, (t.session.spaces[n].id, t.session.spaces[n].tabs.active))
  }

  lemma ActiveIsRemote(t: Topology, snap: seq<RemoteSpace>, i: nat, n: nat) returns (r: string)
    requires TopologyOk(t) && i < |snap| && Converged(t, snap[i])
    requires n < |t.session.spaces| && t.session.spaces[n].id == t.spaceMap[snap[i].id]
    ensures r in t.tabMap && r in LiveTabs(snap)
    ensures t.tabMap[r] == (t.session.spaces[n].id, t.session.spaces[n].tabs.active)
    ensures Shows(t.session, t.tabMap[r])
  {
    hide TabsOk;
    hide Held;
    hide Entered;
    hide SpacesBound;
    hide LiveTabs;
    var tabs := t.session.spaces[n].tabs;
    assert Matches(tabs.tabs, snap[i].tabs, t.tabMap, t.spaceMap[snap[i].id]) && OneActive(tabs);
    var j :| 0 <= j < |Ids(tabs.tabs)| && Ids(tabs.tabs)[j] == tabs.active;
    r := snap[i].tabs[j].id;
    assert r in LiveTabs(snap) by { Named(snap, i, j); }
    forall m | 0 <= m < |t.session.spaces| && t.session.spaces[m].id == t.session.spaces[n].id ensures m == n {
      SpaceAt(t.session, m, n);
    }
  }

  lemma Named(snap: seq<RemoteSpace>, i: nat, j: nat)
    requires i < |snap| && j < |snap[i].tabs|
    ensures snap[i].tabs[j].id in LiveTabs(snap)
  {}

  /// Applying a snapshot to Spaces that match it already leaves the user where they are.
  lemma ConvergedStays(t: Topology, snap: seq<RemoteSpace>, outcomes: Outcomes, order: seq<string>)
    requires TopologyOk(t) && UniqueSpaces(snap)
    requires forall i :: 0 <= i < |snap| ==> Converged(t, snap[i])
    requires t.startup == "" || t.startup !in LiveTabs(snap)
    ensures UserStays(t, ApplyTabs(t, snap, outcomes, order).0, snap)
  {
    hide TopologyOk;
    hide UniqueSpaces;
    hide Converged;
    hide LiveTabs;
    hide ApplyTabs;
    hide Shows;
    hide UserAt;
    hide Resolvable;
    hide NoneDangles;
    ApplyTabsKeeps(t, snap, outcomes, order);
    StartupOnce(t, snap, outcomes, order);
    forall i, n | 0 <= i < |snap| && snap[i].id in t.spaceMap && 0 <= n < |t.session.spaces|
      && t.session.spaces[n].id == t.spaceMap[snap[i].id]
      ensures Shows(ApplyTabs(t, snap, outcomes, order).0.session,
                    (t.session.spaces[n].id, t.session.spaces[n].tabs.active))
    {
      var r := ActiveIsRemote(t, snap, i, n);
      ActiveTabStays(t, snap, outcomes, order, r);
    }
  }

  /// Once a snapshot is applied, applying it again, with whatever outcome, leaves the
  /// user where they are.
  lemma SecondTimeStays(t: Topology, snap: seq<RemoteSpace>, outcomes: Outcomes, order: seq<string>, again: Outcomes,
                        order': seq<string>)
    requires TopologyOk(t) && Resolvable(t, snap) && UniqueSpaces(snap) && UniqueTabs(snap)
    requires forall i :: 0 <= i < |snap| ==> |snap[i].tabs| > 0 && RoomFor(t, snap[i])
    requires EveryProjects(snap, outcomes, |snap|)
    ensures var t1 := ApplyTabs(t, snap, outcomes, order).0;
            UserStays(t1, ApplyTabs(t1, snap, again, order').0, snap)
  {
    hide *;
    ApplyTabsConverges(t, snap, outcomes, order);
    ApplyTabsKeeps(t, snap, outcomes, order);
    if t.startup == "" { StartupOnce(t, snap, outcomes, order); } else { StartupEntered(t, snap, outcomes, order); }
    ConvergedStays(ApplyTabs(t, snap, outcomes, order).0, snap, again, order');
  }
}
