/** What the Space phase of a snapshot does for the user: local Spaces are called as the
    server says, no bound Space is let go while it is open, and one of a Space that is
    gone stays open only where it cannot be closed. */
module TopologySpaces {
  import opened Identifiers
  import opened SplitTrees
  import opened PaneModel
  import opened TabModel
  import opened TabControllers
  import opened TabLaws
  import opened SpaceModel
  import opened TopologyModel
  import opened TopologyLaws
  import opened TopologyInvariant
  import opened TopologyRuns
  import opened TopologyConverges
  import opened TopologyHomes

  // ---------------------------------------------------------------------------
  // Names and directories

  /// The local Space of a remote one has its directory, and its name if it has one.
  ghost predicate CalledAs(t: Topology, remote: RemoteSpace) {
    remote.id in t.spaceMap ==>
      forall n :: 0 <= n < |t.session.spaces| && t.session.spaces[n].id == t.spaceMap[remote.id] ==>
        && t.session.spaces[n].root == remote.root
        && (remote.name != "" ==> t.session.spaces[n].name == remote.name)
  }

  /// The same Spaces with the same tabs; names and directories aside.
  ghost predicate SameRooms(s: Spaces, s': Spaces) {
    && |s'.spaces| == |s.spaces| && s'.active == s.active
    && forall n :: 0 <= n < |s.spaces| ==> s'.spaces[n].id == s.spaces[n].id && s'.spaces[n].tabs == s.spaces[n].tabs
  }

  lemma OneSameRooms(s: Spaces, id: int, name: string, root: string)
    ensures SameRooms(s, SetSpaceRoot(RenameSpace(s, id, name), id, root))
  {
    hide IndexOfSpace;
  }

  lemma OneCalled(s: Spaces, id: int, name: string, root: string)
    requires SpacesOk(s)
    ensures var s' := SetSpaceRoot(RenameSpace(s, id, name), id, root);
            && |s'.spaces| == |s.spaces|
            && forall n :: 0 <= n < |s.spaces| ==>
                 if s.spaces[n].id != id then s'.spaces[n] == s.spaces[n]
                 else s'.spaces[n].id == id && s'.spaces[n].root == root
                      && (name != "" ==> s'.spaces[n].name == name)
  {
    hide TabsOk;
    var s1 := RenameSpace(s, id, name);
    assert SpaceIds(s1.spaces) == SpaceIds(s.spaces);
    hide IndexOfSpace;
    forall n | 0 <= n < |s.spaces| && s.spaces[n].id == id ensures n == IndexOfSpace(s.spaces, id).value {
      assert SpaceIds(s.spaces)[n] == id;
      SpaceAt(s, n, IndexOfSpace(s.spaces, id).value);
    }
    assert id in SpaceIds(s.spaces) ==> SpaceIds(s1.spaces)[IndexOfSpace(s.spaces, id).value] == id;
    if id in SpaceIds(s.spaces) {
      var i, j := IndexOfSpace(s.spaces, id).value, IndexOfSpace(s1.spaces, id).value;
      assert SpaceIds(s.spaces)[j] == SpaceIds(s1.spaces)[j] == id;
      SpaceAt(s, i, j);
    }
    hide SpaceIds;
  }

  lemma {:induction false} RenameCalls(t: Topology, snap: seq<RemoteSpace>, k: nat)
    requires TopologyOk(t) && UniqueSpaces(snap) && k <= |snap|
    ensures forall i :: 0 <= i < k ==> CalledAs(Rename(t, snap, k), snap[i])
  {
    hide TopologyOk;
    hide CalledAs;
    hide SetSpaceRoot;
    hide RenameSpace;
    if k > 0 {
      RenameCalls(t, snap, k - 1);
      RenameAllKeeps(t, snap, k - 1);
      var t1, remote := Rename(t, snap, k - 1), snap[k - 1];
      forall i | 0 <= i < k ensures CalledAs(Rename(t, snap, k), snap[i]) {
        CalledStep(t1, remote, snap[i], i == k - 1);
      }
    }
  }

  lemma CalledStep(t: Topology, remote: RemoteSpace, other: RemoteSpace, same: bool)
    requires TopologyOk(t) && (if same then other == remote else other.id != remote.id && CalledAs(t, other))
    ensures var t' := if remote.id !in t.spaceMap then t
                      else var local := t.spaceMap[remote.id];
                        t.(session := SetSpaceRoot(RenameSpace(t.session, local, remote.name), local, remote.root));
            CalledAs(t', other)
  {
    hide SetSpaceRoot;
    hide RenameSpace;
    hide SpacesOk;
    hide Entered;
    hide Held;
    hide SpaceIds;
    if remote.id in t.spaceMap {
      OneCalled(t.session, t.spaceMap[remote.id], remote.name, remote.root);
      if !same && other.id in t.spaceMap {
        assert t.localMap[t.spaceMap[other.id]] == other.id;
        assert t.localMap[t.spaceMap[remote.id]] == remote.id;
      }
    }
  }

  /// After the Space phase the local Space of every remote one is called as the server says.
  lemma SpacesFollowServer(t: Topology, snap: seq<RemoteSpace>, order: seq<string>)
    requires TopologyOk(t) && UniqueSpaces(snap) && ApplySpaces(t, snap, order).1
    ensures forall i :: 0 <= i < |snap| ==> CalledAs(ApplySpaces(t, snap, order).0, snap[i])
  {
    hide CreateMissing;
    hide CloseRemoved;
    hide EraseAll;
    hide Rename;
    hide TopologyOk;
    hide CalledAs;
    hide UniqueSpaces;
    if t.spaceMap == map[] { FirstBound(t, snap[0].id); }
    var t1 := if t.spaceMap == map[] then BindSpace(t, snap[0].id, t.session.active) else t;
    CreateMissingKeeps(t1, snap, |snap|);
    var t2 := CreateMissing(t1, snap, |snap|).0;
    CloseGoneKeeps(t2, LiveSpaces(snap), order);
    var (session, removed) := CloseRemoved(t2.session, t2.spaceMap, LiveSpaces(snap), order);
    RenameCalls(EraseAll(t2.(session := session), removed), snap, |snap|);
  }

  // ---------------------------------------------------------------------------
  // Closing the Spaces that are gone

  /// The Space is open, it is not the only one, and if the user is in it there is another
  /// with an active tab to go to.
  ghost predicate CanClose(s: Spaces, id: int) {
    && |s.spaces| > 1 && id in SpaceIds(s.spaces)
    && (id == s.active ==>
          exists i :: 0 <= i < |s.spaces| && s.spaces[i].id != id && ActiveTab(s.spaces[i].tabs).Some?)
  }

  /// Closing a Space takes it away, exactly when it can be closed.
  lemma ClosesExactly(s: Spaces, id: int)
    requires SpacesOk(s)
    ensures CloseSpace(s, id).1 <==> CanClose(s, id)
    ensures CloseSpace(s, id).1 ==> id !in SpaceIds(CloseSpace(s, id).0.spaces)
  {
    hide SpaceIds;
    if id == s.active {
      ClosesActive(s, id);
    } else {
      if id in SpaceIds(s.spaces) { ClosedIsGone(s, s, id); }
      hide SpacesOk;
      hide IndexOfSpace;
    }
  }

  lemma ClosesActive(s: Spaces, id: int)
    requires SpacesOk(s) && id == s.active
    ensures CloseSpace(s, id).1 <==> CanClose(s, id)
    ensures CloseSpace(s, id).1 ==> id !in SpaceIds(CloseSpace(s, id).0.spaces)
  {
    hide ActiveTab;
    hide Replacement;
    hide SpaceIds;
    if id in SpaceIds(s.spaces) && Replacement(s.spaces, id).Some? {
      var next := s.spaces[Replacement(s.spaces, id).value].id;
      EntersReplacement(s, id);
      ActivatedAlike(s, next);
      ClosedIsGone(s, ActivateSpace(s, next).0, id);
    }
    hide SpacesOk;
    hide IndexOfSpace;
    hide ActivateSpace;
  }

  lemma EntersReplacement(s: Spaces, id: int)
    requires SpacesOk(s) && Replacement(s.spaces, id).Some?
    ensures ActivateSpace(s, s.spaces[Replacement(s.spaces, id).value].id).1
  {
    hide TabsOk;
    hide ActiveTab;
    hide Replacement;
    var j := Replacement(s.spaces, id).value;
    assert SpaceIds(s.spaces)[j] == s.spaces[j].id;
    SpaceAt(s, j, IndexOfSpace(s.spaces, s.spaces[j].id).value);
  }

  lemma ClosedIsGone(s: Spaces, s': Spaces, id: int)
    requires SpacesOk(s) && SpaceIds(s'.spaces) == SpaceIds(s.spaces) && id in SpaceIds(s.spaces)
    ensures var i := IndexOfSpace(s.spaces, id).value;
            i < |s'.spaces| && id !in SpaceIds(s'.spaces[..i] + s'.spaces[i + 1..])
  {
    hide TabsOk;
    var i := IndexOfSpace(s.spaces, id).value;
    assert |s'.spaces| == |SpaceIds(s'.spaces)| == |s.spaces|;
    DroppedIds(s'.spaces, i);
    DroppedGone(SpaceIds(s.spaces), i);
    assert SpaceIds(s.spaces)[i] == id;
    hide IndexOfSpace;
  }

  /// What cannot be closed cannot be closed after another Space was.
  lemma StaysUnclosable(s: Spaces, s': Spaces, id: int)
    requires !CanClose(s, id) && |s'.spaces| <= |s.spaces|
    requires forall space' :: space' in s'.spaces ==>
               exists space ::
                 space in s.spaces && space.id == space'.id && ActiveTab(space.tabs) == ActiveTab(space'.tabs)
    requires id == s.active ==> s'.active == id
    ensures !CanClose(s', id)
  {
    hide ActiveTab;
    if id in SpaceIds(s'.spaces) {
      var n :| 0 <= n < |s'.spaces| && s'.spaces[n].id == id;
      var space :| space in s.spaces && space.id == id;
      var m :| 0 <= m < |s.spaces| && s.spaces[m] == space;
      assert SpaceIds(s.spaces)[m] == id;
      if |s.spaces| > 1 {
        forall i | 0 <= i < |s'.spaces| && s'.spaces[i].id != id ensures ActiveTab(s'.spaces[i].tabs).None? {
          assert s'.spaces[i] in s'.spaces;
        }
      }
    }
  }

  /// The Spaces left were there before, with the same active tab.
  ghost predicate LeftOver(s: Spaces, s': Spaces) {
    && |s'.spaces| <= |s.spaces|
    && forall space' :: space' in s'.spaces ==>
         exists space :: space in s.spaces && space.id == space'.id && ActiveTab(space.tabs) == ActiveTab(space'.tabs)
  }

  lemma EnteringLeaves(s: Spaces, id: int)
    ensures LeftOver(s, ActivateSpace(s, id).0)
  {
    hide IndexOfSpace;
    hide IndexOfTab;
    var s' := ActivateSpace(s, id).0;
    forall space' | space' in s'.spaces
      ensures exists space ::
                space in s.spaces && space.id == space'.id && ActiveTab(space.tabs) == ActiveTab(space'.tabs)
    {
      var i :| 0 <= i < |s'.spaces| && s'.spaces[i] == space';
      assert s.spaces[i] in s.spaces;
    }
  }

  lemma ClosingLeaves(s: Spaces, id: int)
    ensures LeftOver(s, CloseSpace(s, id).0)
    ensures id != s.active ==> CloseSpace(s, id).0.active == s.active
  {
    hide ActivateSpace;
    hide IndexOfSpace;
    hide ActiveTab;
    if CloseSpace(s, id).1 && id == s.active { EnteringLeaves(s, s.spaces[Replacement(s.spaces, id).value].id); }
    hide Replacement;
  }

  lemma FewerIds(s: Spaces, s': Spaces, id: int)
    requires LeftOver(s, s') && id !in SpaceIds(s.spaces)
    ensures id !in SpaceIds(s'.spaces)
  {
    hide ActiveTab;
    forall n | 0 <= n < |s'.spaces| ensures s'.spaces[n].id != id {
      assert s'.spaces[n] in s'.spaces;
      var space :| space in s.spaces && space.id == s'.spaces[n].id;
      var m :| 0 <= m < |s.spaces| && s.spaces[m] == space;
      assert SpaceIds(s.spaces)[m] == space.id;
    }
  }

  /// Of the Spaces that are gone from the server, those closed are open no more, and
  /// those that were not closed cannot be.
  lemma {:induction false} ClosesWhatItCan(s: Spaces, spaceMap: map<string, int>, live: set<string>, order: seq<string>)
    requires SpacesOk(s)
    ensures var (s', removed) := CloseRemoved(s, spaceMap, live, order);
            && SpacesOk(s')
            && (forall r :: r in removed ==> r in spaceMap && r !in live && spaceMap[r] !in SpaceIds(s'.spaces))
            && (forall r :: r in order && r in spaceMap && r !in live && r !in removed ==> !CanClose(s', spaceMap[r]))
  {
    hide CloseSpace;
    hide SpacesOk;
    hide SpaceIds;
    hide CanClose;
    if order != [] {
      var front, r := order[..|order| - 1], order[|order| - 1];
      assert order == front + [r];
      ClosesWhatItCan(s, spaceMap, live, front);
      var (s1, removed) := CloseRemoved(s, spaceMap, live, front);
      if r !in live && r in spaceMap {
        var s2 := CloseSpace(s1, spaceMap[r]).0;
        CloseShrinks(s1, spaceMap[r]);
        ClosesExactly(s1, spaceMap[r]);
        ClosingLeaves(s1, spaceMap[r]);
        forall x | x in removed ensures spaceMap[x] !in SpaceIds(s2.spaces) { FewerIds(s1, s2, spaceMap[x]); }
        forall x | x in spaceMap && !CanClose(s1, spaceMap[x]) ensures !CanClose(s2, spaceMap[x]) {
          if CloseSpace(s1, spaceMap[r]).1 { StaysUnclosable(s1, s2, spaceMap[x]); }
        }
        hide LeftOver;
        hide Shrunk;
      }
    }
  }

  lemma {:induction false} RenameSameRooms(t: Topology, snap: seq<RemoteSpace>, k: nat)
    requires TopologyOk(t) && k <= |snap|
    ensures SameRooms(t.session, Rename(t, snap, k).session)
  {
    hide TopologyOk;
    hide SetSpaceRoot;
    hide RenameSpace;
    if k > 0 {
      RenameSameRooms(t, snap, k - 1);
      RenameAllKeeps(t, snap, k - 1);
      var t1, remote := Rename(t, snap, k - 1), snap[k - 1];
      if remote.id in t1.spaceMap { OneSameRooms(t1.session, t1.spaceMap[remote.id], remote.name, remote.root); }
    }
  }

  lemma OkBound(t: Topology)
    requires TopologyOk(t)
    ensures SpacesOk(t.session) && SpacesBound(t)
  {}

  lemma SameRoomsClose(s: Spaces, s': Spaces, id: int)
    requires SameRooms(s, s')
    ensures (id in SpaceIds(s'.spaces) <==> id in SpaceIds(s.spaces)) && (CanClose(s', id) <==> CanClose(s, id))
  {
    hide ActiveTab;
    assert SpaceIds(s'.spaces) == SpaceIds(s.spaces);
  }

  /// A bound Space stays bound, to the same remote one, exactly as long as it is open; and
  /// one whose remote Space is gone is still open only where it cannot be closed.
  lemma GoneSpacesClose(t: Topology, snap: seq<RemoteSpace>, order: seq<string>, r: string)
    requires TopologyOk(t) && ApplySpaces(t, snap, order).1 && r in t.spaceMap
    requires forall x :: x in t.spaceMap ==> x in order
    ensures var t' := ApplySpaces(t, snap, order).0;
            && (r in t'.spaceMap <==> t.spaceMap[r] in SpaceIds(t'.session.spaces))
            && (r in t'.spaceMap ==> t'.spaceMap[r] == t.spaceMap[r])
            && (r in LiveSpaces(snap) ==> r in t'.spaceMap)
            && (r !in LiveSpaces(snap) && r in t'.spaceMap ==> !CanClose(t'.session, t.spaceMap[r]))
  {
    hide CreateMissing;
    hide CloseRemoved;
    hide EraseAll;
    hide Rename;
    hide TopologyOk;
    hide SpacesOk;
    hide CanClose;
    hide LiveSpaces;
    hide SpaceIds;
    var live := LiveSpaces(snap);
    CreateMissingKeeps(t, snap, |snap|);
    CreatingKeepsBindings(t, snap, |snap|, t.spaceMap.Keys);
    var t2 := CreateMissing(t, snap, |snap|).0;
    OkBound(t2);
    ClosesWhatItCan(t2.session, t2.spaceMap, live, order);
    CloseGoneKeeps(t2, live, order);
    CloseRemovedShrinks(t2.session, t2.spaceMap, live, order);
    var (session, removed) := CloseRemoved(t2.session, t2.spaceMap, live, order);
    EraseAllLaw(t2.(session := session), removed);
    var t3 := EraseAll(t2.(session := session), removed);
    RenameAllKeeps(t3, snap, |snap|);
    RenameSameRooms(t3, snap, |snap|);
    SameRoomsClose(t3.session, Rename(t3, snap, |snap|).session, t.spaceMap[r]);
    hide SameRooms;
    hide Shrunk;
  }

  // ---------------------------------------------------------------------------
  // Tabs that are gone

  /// The tab is not in its Space, or is the only one there.
  ghost predicate GoneOrLast(s: Spaces, place: (int, int)) {
    forall n :: 0 <= n < |s.spaces| && s.spaces[n].id == place.0 ==>
      place.1 !in Ids(s.spaces[n].tabs.tabs) || |s.spaces[n].tabs.tabs| <= 1
  }

  lemma ClosingTab(t: Tabs, id: int, other: int)
    requires TabsOk(t)
    ensures var t' := CloseTab(t, id).0;
            && |t'.tabs| <= |t.tabs| && (other in Ids(t'.tabs) ==> other in Ids(t.tabs))
            && (id !in Ids(t'.tabs) || |t'.tabs| <= 1)
  {
    CloseTabLaw(t, id);
    hide IndexOfTab;
    hide TabsOk;
  }

  lemma ClosingInGone(s: Spaces, space: int, tab: int, place: (int, int))
    requires SpacesOk(s) && (GoneOrLast(s, place) || place == (space, tab))
    ensures GoneOrLast(CloseIn(s, space, tab), place)
  {
    hide CloseTab;
    hide IndexOfSpace;
    hide TabsOk;
    if space in SpaceIds(s.spaces) {
      var i := IndexOfSpace(s.spaces, space).value;
      ClosingTab(s.spaces[i].tabs, tab, place.1);
      forall n | 0 <= n < |s.spaces| && s.spaces[n].id == space ensures n == i { SpaceAt(s, n, i); }
    } else {
      forall n | 0 <= n < |s.spaces| ensures s.spaces[n].id != space { assert SpaceIds(s.spaces)[n] == s.spaces[n].id; }
    }
  }

  lemma {:induction false} SweepCloses(s: Spaces, m: TabMap, live: set<string>, order: seq<string>, r: string)
    requires SpacesOk(s) && Unique(m) && r in order && r in m && r !in live
    ensures GoneOrLast(SweepSession(s, m, live, order), m[r])
  {
    hide CloseIn;
    hide SpacesOk;
    hide GoneOrLast;
    hide Unique;
    var front, last := order[..|order| - 1], order[|order| - 1];
    assert order == front + [last];
    SweepKeepsLive(s, m, live, front);
    SweptOk(s, SweepSession(s, m, live, front), LiveEntries(m, live));
    if r in front { SweepCloses(s, m, live, front, r); }
    if last !in live && last in m {
      ClosingInGone(SweepSession(s, m, live, front), m[last].0, m[last].1, m[r]);
    }
  }

  lemma {:induction false} EachKeepsEntry(t: Topology, snap: seq<RemoteSpace>, outcomes: Outcomes, k: nat, r: string)
    requires Passing(t, snap) && UniqueSpaces(snap) && k <= |snap| && r in t.tabMap
    ensures var t' := ApplyEach(t, snap, outcomes, k).0; r in t'.tabMap && t'.tabMap[r] == t.tabMap[r]
  {
    hide Passing;
    hide ApplySpace;
    hide UniqueSpaces;
    if k > 0 {
      EachKeepsEntry(t, snap, outcomes, k - 1, r);
      ApplyEachKeeps(t, snap, outcomes, k - 1);
      SpaceKeepsEntry(ApplyEach(t, snap, outcomes, k - 1).0, snap, k - 1, outcomes(k - 1), r);
    }
  }

  lemma SpaceKeepsEntry(t: Topology, snap: seq<RemoteSpace>, k: nat, outcomes: nat -> Outcome, r: string)
    requires Passing(t, snap) && UniqueSpaces(snap) && k < |snap| && r in t.tabMap
    ensures var t' := ApplySpace(t, snap[k], outcomes).0; r in t'.tabMap && t'.tabMap[r] == t.tabMap[r]
  {
    hide PassOver;
    hide FinishPass;
    hide IndexOfSpace;
    hide UniqueSpaces;
    hide Passing;
    if snap[k].id in t.spaceMap && t.spaceMap[snap[k].id] in SpaceIds(t.session.spaces) {
      ApplyIsPass(t, snap, k, IndexOfSpace(t.session.spaces, t.spaceMap[snap[k].id]).value, outcomes);
      hide ApplySpace;
    }
  }

  /// The local tab of a remote one that is gone is closed by the next snapshot that
  /// resolves, even in a Space that is itself gone from the server, unless it is the last
  /// tab of its Space; and it is remembered no more.
  lemma StaleTabsClose(t: Topology, snap: seq<RemoteSpace>, outcomes: Outcomes, order: seq<string>, r: string)
    requires TopologyOk(t) && UniqueSpaces(snap) && Resolvable(t, snap)
    requires r in t.tabMap && r !in LiveTabs(snap) && r in order
    ensures var t' := ApplyTabs(t, snap, outcomes, order).0;
            r !in t'.tabMap && GoneOrLast(t'.session, t.tabMap[r])
  {
    hide ApplyEach;
    hide SweepSession;
    hide EnterStartup;
    hide Resolvable;
    hide UniqueSpaces;
    hide LiveTabs;
    hide TopologyOk;
    hide NoneDangles;
    hide GoneOrLast;
    hide Passing;
    ApplyTabsKeeps(t, snap, outcomes, order);
    PassingStarts(t, snap);
    ApplyEachKeeps(t, snap, outcomes, |snap|);
    EachKeepsEntry(t, snap, outcomes, |snap|, r);
    var t1 := ApplyEach(t, snap, outcomes, |snap|).0;
    PassingOk(t1, snap);
    hide SpacesOk;
    SweepCloses(t1.session, t1.tabMap, LiveTabs(snap), order, r);
    SweepKeeps(t1, snap, order);
    var t2 := Sweep(t1, LiveTabs(snap), order);
    OkBound(t2);
    EnterStartupKeeps(t2);
    StructureGone(t2.session, EnterStartup(t2).session, t.tabMap[r]);
  }

  lemma PassingOk(t: Topology, snap: seq<RemoteSpace>)
    requires Passing(t, snap)
    ensures SpacesOk(t.session) && Unique(t.tabMap)
  {}

  lemma StructureGone(s: Spaces, s': Spaces, place: (int, int))
    requires SameStructure(s, s') && GoneOrLast(s, place)
    ensures GoneOrLast(s', place)
  {
    hide SpacesOk;
    forall n | 0 <= n < |s'.spaces| ensures n < |s.spaces| && s'.spaces[n].id == s.spaces[n].id {
      assert SpaceIds(s'.spaces)[n] == SpaceIds(s.spaces)[n];
    }
  }
}
