/** Applying whole snapshots, in any number: what is kept. */
module TopologyRuns {
  import opened Identifiers
  import opened SplitTrees
  import opened PaneModel
  import opened TabModel
  import opened TabControllers
  import opened SpaceModel
  import opened TopologyModel
  import opened TopologyLaws
  import opened TopologyInvariant

  // ---------------------------------------------------------------------------
  // The tab phase

  /// Same Spaces with the same tabs; only what is active may differ.
  ghost predicate SameStructure(s: Spaces, s': Spaces) {
    && SpacesOk(s') && SpaceIds(s'.spaces) == SpaceIds(s.spaces) && s'.next == s.next
    && forall i :: 0 <= i < |s.spaces| ==>
         i < |s'.spaces| && s'.spaces[i].tabs.tabs == s.spaces[i].tabs.tabs
           && s'.spaces[i].tabs.next == s.spaces[i].tabs.next
  }

  lemma EnterStartupKeeps(t: Topology)
    requires SpacesOk(t.session)
    ensures var t' := EnterStartup(t);
            SameStructure(t.session, t'.session) && t' == t.(session := t'.session, startup := t'.startup)
  {
    hide SpacesOk;
    hide ActiveTab;
    hide IndexOfSpace;
    if t.startup != "" && t.startup in t.tabMap && t.tabMap[t.startup].0 in SpaceIds(t.session.spaces) {
      var (space, tab) := t.tabMap[t.startup];
      var i := IndexOfSpace(t.session.spaces, space).value;
      StartupTab(t.session, i, tab);
      var s1 := WithTabs(t.session, i, Activate(t.session.spaces[i].tabs, tab).0);
      hide Activate;
      assert SpaceIds(s1.spaces) == SpaceIds(t.session.spaces);
      EnterOk(s1, space);
    }
  }

  lemma StartupTab(s: Spaces, i: nat, tab: int)
    requires SpacesOk(s) && i < |s.spaces|
    ensures SpacesOk(WithTabs(s, i, Activate(s.spaces[i].tabs, tab).0))
  {
    hide TabsOk;
    ActivateOk(s.spaces[i].tabs, tab);
    hide Activate;
    SwappedOk(s, i, Activate(s.spaces[i].tabs, tab).0);
  }

  lemma EnterOk(s: Spaces, id: int)
    requires SpacesOk(s)
    ensures SameStructure(s, ActivateSpace(s, id).0)
  {
    hide ActiveTab;
    hide IndexOfSpace;
    var s' := ActivateSpace(s, id).0;
    ActivatedAlike(s, id);
    forall i | 0 <= i < |s.spaces|
      ensures s'.spaces[i].tabs.tabs == s.spaces[i].tabs.tabs && s'.spaces[i].tabs.next == s.spaces[i].tabs.next
              && s'.spaces[i].tabs.active == s.spaces[i].tabs.active
    {}
    hide ActivateSpace;
    forall i | 0 <= i < |s'.spaces| ensures 0 <= s'.spaces[i].id < s'.next && TabsOk(s'.spaces[i].tabs) {
      assert SpaceIds(s'.spaces)[i] == SpaceIds(s.spaces)[i];
      SameTabsOk(s.spaces[i].tabs, s'.spaces[i].tabs);
    }
  }

  lemma SameTabsOk(t: Tabs, t': Tabs)
    requires TabsOk(t) && t'.tabs == t.tabs && t'.next == t.next && t'.active == t.active
    ensures TabsOk(t')
  {}

  lemma SameStructureKeeps(t: Topology, t': Topology)
    requires TopologyOk(t) && NoneDangles(t) && SameStructure(t.session, t'.session)
    requires t'.spaceMap == t.spaceMap && t'.localMap == t.localMap && t'.tabMap == t.tabMap
    ensures TopologyOk(t') && NoneDangles(t')
  {
    hide SpacesOk;
    forall i | 0 <= i < |t.session.spaces| ensures t'.session.spaces[i].id == t.session.spaces[i].id {
      assert SpaceIds(t.session.spaces)[i] == SpaceIds(t'.session.spaces)[i];
    }
    assert |t'.session.spaces| == |SpaceIds(t'.session.spaces)| == |t.session.spaces|;
    hide SpaceIds;
    forall r | r in t.tabMap ensures Held(t'.session, t'.tabMap[r]) {
      assert Held(t.session, t.tabMap[r]);
    }
    hide Ids;
    assert Entered(t'.session, t'.tabMap);
  }

  /// Applying the tabs of a snapshot: if its identities can be resolved, then
  /// whatever else goes wrong the tab map ends injective, holds only tabs of the
  /// snapshot, and each entry names a live tab of a live Space. If they cannot,
  /// nothing changes.
  lemma ApplyTabsKeeps(t: Topology, snap: seq<RemoteSpace>, outcomes: Outcomes, order: seq<string>)
    requires TopologyOk(t) && UniqueSpaces(snap)
    ensures var (t', ok) := ApplyTabs(t, snap, outcomes, order);
            && TopologyOk(t')
            && (Resolvable(t, snap) ==> NoneDangles(t') && t'.tabMap.Keys <= LiveTabs(snap))
            && (!Resolvable(t, snap) ==> t' == t && !ok)
  {
    hide ApplyEach;
    hide Sweep;
    hide EnterStartup;
    hide Resolvable;
    hide UniqueSpaces;
    hide LiveTabs;
    if Resolvable(t, snap) {
      PassingStarts(t, snap);
      ApplyEachKeeps(t, snap, outcomes, |snap|);
      var (t1, ok) := ApplyEach(t, snap, outcomes, |snap|);
      hide Passing;
      SweepKeeps(t1, snap, order);
      var t2 := Sweep(t1, LiveTabs(snap), order);
      assert SpacesOk(t2.session);
      hide TopologyOk;
      hide NoneDangles;
      EnterStartupKeeps(t2);
      SameStructureKeeps(t2, EnterStartup(t2));
    }
  }

  // ---------------------------------------------------------------------------
  // The Space phase

  /// Binding two identities that are both unbound.
  lemma BindFresh(t: Topology, remote: string, local: int)
    requires SpacesBound(t) && remote !in t.spaceMap && local !in t.localMap && local in SpaceIds(t.session.spaces)
    ensures var t' := BindSpace(t, remote, local);
            && SpacesBound(t') && t'.spaceMap == t.spaceMap[remote := local]
            && t'.session == t.session && t'.tabMap == t.tabMap
  {
    hide SpaceIds;
  }

  lemma CreateOneKeeps(t: Topology, name: string, root: string, remote: string)
    requires TopologyOk(t) && remote !in t.spaceMap && CreateSpace(t.session, name, root).1 >= 0
    ensures var (session, id) := CreateSpace(t.session, name, root);
            TopologyOk(BindSpace(t.(session := session), remote, id))
  {
    var (session, id) := CreateSpace(t.session, name, root);
    var space := Space(id, name, root, SetFocusEnabled(NO_TABS, false));
    NoTabsOk();
    hide SpacesOk;
    hide SpacesBound;
    hide Held;
    hide Entered;
    hide BindSpace;
    hide IndexOfSpace;
    hide TabsOk;
    AppendedOk(t.session, space);
    BoundBelow(t);
    AppendedBound(t, space);
    BindFresh(t.(session := session), remote, id);
    AppendedHeld(t.session, t.tabMap, space);
  }

  lemma AppendedBound(t: Topology, space: Space)
    requires SpacesBound(t)
    ensures var session := t.session.(spaces := t.session.spaces + [space], next := t.session.next + 1);
            SpacesBound(t.(session := session)) && space.id in SpaceIds(session.spaces)
  {
    var ids := SpaceIds(t.session.spaces + [space]);
    assert ids == SpaceIds(t.session.spaces) + [space.id];
    assert ids[|t.session.spaces|] == space.id;
    hide SpaceIds;
  }

  /// No entry can name a Space that is only now created.
  lemma AppendedHeld(s: Spaces, m: TabMap, space: Space)
    requires Entered(s, m) && (forall r :: r in m ==> Held(s, m[r])) && space.id == s.next
    ensures var s' := s.(spaces := s.spaces + [space], next := s.next + 1);
            Entered(s', m) && forall r :: r in m ==> Held(s', m[r])
  {
    hide Ids;
    var s' := s.(spaces := s.spaces + [space], next := s.next + 1);
    forall r | r in m ensures Held(s', m[r]) {
      assert Held(s, m[r]) && m[r].0 < s.next;
    }
  }

  lemma BoundBelow(t: Topology)
    requires SpacesOk(t.session) && SpacesBound(t)
    ensures forall l :: l in t.localMap ==> l < t.session.next
  {
    hide TabsOk;
    forall l | l in t.localMap ensures l < t.session.next {
      assert l in SpaceIds(t.session.spaces);
    }
  }

  lemma {:induction false} CreateMissingKeeps(t: Topology, snap: seq<RemoteSpace>, k: nat)
    requires TopologyOk(t) && k <= |snap|
    ensures var (t', ok) := CreateMissing(t, snap, k);
            TopologyOk(t') && (ok ==> forall i :: 0 <= i < k ==> snap[i].id in t'.spaceMap)
    ensures t.spaceMap.Keys <= CreateMissing(t, snap, k).0.spaceMap.Keys
  {
    hide CreateSpace;
    hide TopologyOk;
    if k > 0 {
      CreateMissingKeeps(t, snap, k - 1);
      var (t1, ok) := CreateMissing(t, snap, k - 1);
      var remote := snap[k - 1];
      if ok && remote.id !in t1.spaceMap && CreateSpace(t1.session, remote.name, remote.root).1 >= 0 {
        CreateOneKeeps(t1, remote.name, remote.root, remote.id);
        CreateOneKeys(t1, remote);
        hide BindSpace;
      }
    }
  }

  lemma CreateOneKeys(t: Topology, remote: RemoteSpace)
    requires TopologyOk(t) && remote.id !in t.spaceMap && CreateSpace(t.session, remote.name, remote.root).1 >= 0
    ensures var (session, id) := CreateSpace(t.session, remote.name, remote.root);
            BindSpace(t.(session := session), remote.id, id).spaceMap.Keys == t.spaceMap.Keys + {remote.id}
  {
    BoundBelow(t);
    hide SpacesOk;
    hide SpacesBound;
    hide Entered;
    hide Held;
  }

  /// Some Spaces were closed; the others keep their tabs.
  ghost predicate Shrunk(s: Spaces, s': Spaces) {
    && SpacesOk(s') && s'.next == s.next
    && forall space' :: space' in s'.spaces ==>
         exists space :: space in s.spaces && space.id == space'.id && space.tabs.tabs == space'.tabs.tabs
           && space.tabs.next == space'.tabs.next
  }

  lemma ShrunkTrans(a: Spaces, b: Spaces, c: Spaces)
    requires Shrunk(a, b) && Shrunk(b, c)
    ensures Shrunk(a, c)
  {
    hide SpacesOk;
  }

  lemma CloseShrinks(s: Spaces, id: int)
    requires SpacesOk(s)
    ensures var (s', ok) := CloseSpace(s, id);
            && Shrunk(s, s')
            && (!ok ==> s' == s)
            && (ok ==> forall x :: x in SpaceIds(s.spaces) && x != id ==> x in SpaceIds(s'.spaces))
  {
    hide SpacesOk;
    hide Shrunk;
    hide ActivateSpace;
    hide SpaceIds;
    if !CloseSpace(s, id).1 {
      StructureShrinks(s, s);
    } else if id == s.active {
      var i := IndexOfSpace(s.spaces, id).value;
      var next := s.spaces[Replacement(s.spaces, id).value].id;
      EnterOk(s, next);
      ActivatedAlike(s, next);
      StructureShrinks(s, ActivateSpace(s, next).0);
      SameIdAt(s, ActivateSpace(s, next).0, i);
      DropShrinks(ActivateSpace(s, next).0, i);
      ShrunkTrans(s, ActivateSpace(s, next).0, CloseSpace(s, id).0);
    } else {
      DropShrinks(s, IndexOfSpace(s.spaces, id).value);
    }
  }

  lemma SameIdAt(s: Spaces, s': Spaces, i: nat)
    requires SpaceIds(s'.spaces) == SpaceIds(s.spaces) && i < |s.spaces|
    ensures i < |s'.spaces| && s'.spaces[i].id == s.spaces[i].id
  {
    assert SpaceIds(s'.spaces)[i] == SpaceIds(s.spaces)[i];
  }

  lemma StructureShrinks(s: Spaces, s': Spaces)
    requires SameStructure(s, s') || (s' == s && SpacesOk(s))
    ensures Shrunk(s, s')
  {
    hide SpacesOk;
    forall space' | space' in s'.spaces
      ensures exists space ::
                && space in s.spaces && space.id == space'.id
                && space.tabs.tabs == space'.tabs.tabs && space.tabs.next == space'.tabs.next
    {
      var i :| 0 <= i < |s'.spaces| && s'.spaces[i] == space';
      assert SpaceIds(s'.spaces)[i] == SpaceIds(s.spaces)[i];
      assert s.spaces[i] in s.spaces;
    }
  }

  lemma DropShrinks(s: Spaces, i: nat)
    requires SpacesOk(s) && i < |s.spaces| && s.spaces[i].id != s.active
    ensures var s' := s.(spaces := s.spaces[..i] + s.spaces[i + 1..]);
            && Shrunk(s, s')
            && forall x :: x in SpaceIds(s.spaces) && x != s.spaces[i].id ==> x in SpaceIds(s'.spaces)
  {
    var s' := s.(spaces := s.spaces[..i] + s.spaces[i + 1..]);
    DroppedOk(s, i);
    DroppedIds(s.spaces, i);
    assert SpaceIds(s.spaces)[i] == s.spaces[i].id;
    hide SpacesOk;
    DroppedAt(s.spaces, i);
    forall x | x in SpaceIds(s.spaces) && x != s.spaces[i].id ensures x in SpaceIds(s'.spaces) {
      DroppedStill(SpaceIds(s.spaces), i, x);
    }
  }

  lemma {:induction false} CloseRemovedShrinks(s: Spaces, spaceMap: map<string, int>, live: set<string>,
                                               order: seq<string>)
    requires SpacesOk(s) && (forall a, b :: a in spaceMap && b in spaceMap && a != b ==> spaceMap[a] != spaceMap[b])
    ensures var (s', removed) := CloseRemoved(s, spaceMap, live, order);
            && Shrunk(s, s')
            && (forall r :: r in removed ==> r !in live)
            && (forall r :: r in spaceMap && r !in removed && spaceMap[r] in SpaceIds(s.spaces) ==>
                spaceMap[r] in SpaceIds(s'.spaces))
  {
    hide CloseSpace;
    hide SpacesOk;
    hide SpaceIds;
    if order == [] {
      StructureShrinks(s, s);
    } else {
      CloseRemovedShrinks(s, spaceMap, live, order[..|order| - 1]);
      var (s1, removed) := CloseRemoved(s, spaceMap, live, order[..|order| - 1]);
      var r := order[|order| - 1];
      if r !in live && r in spaceMap {
        CloseShrinks(s1, spaceMap[r]);
        ShrunkTrans(s, s1, CloseSpace(s1, spaceMap[r]).0);
        hide Shrunk;
      }
    }
  }

  lemma {:induction false} EraseAllLaw(t: Topology, removed: seq<string>)
    requires (forall r :: r in t.spaceMap ==> t.spaceMap[r] in t.localMap && t.localMap[t.spaceMap[r]] == r)
    requires (forall l :: l in t.localMap ==> t.localMap[l] in t.spaceMap && t.spaceMap[t.localMap[l]] == l)
    ensures var t' := EraseAll(t, removed);
            && t' == t.(spaceMap := t'.spaceMap, localMap := t'.localMap)
            && (forall r :: r in t'.spaceMap <==> r in t.spaceMap && r !in removed)
            && (forall r :: r in t'.spaceMap ==> t'.spaceMap[r] == t.spaceMap[r])
            && (forall r :: r in t'.spaceMap ==> t'.spaceMap[r] in t'.localMap && t'.localMap[t'.spaceMap[r]] == r)
            && (forall l :: l in t'.localMap ==> t'.localMap[l] in t'.spaceMap && t'.spaceMap[t'.localMap[l]] == l)
  {
    if removed != [] {
      EraseAllLaw(t, removed[..|removed| - 1]);
    }
  }

  lemma ShrunkKeeps(t: Topology, t': Topology)
    requires TopologyOk(t) && Shrunk(t.session, t'.session) && SpacesBound(t') && t'.tabMap == t.tabMap
    ensures TopologyOk(t')
  {
    hide SpacesOk;
    hide SpacesBound;
    forall r | r in t.tabMap
      ensures Held(t'.session, t'.tabMap[r])
      ensures forall i :: 0 <= i < |t'.session.spaces| && t'.session.spaces[i].id == t.tabMap[r].0 ==>
                0 <= t.tabMap[r].1 < t'.session.spaces[i].tabs.next
    {
      assert Held(t.session, t.tabMap[r]);
      forall i | 0 <= i < |t'.session.spaces| && t'.session.spaces[i].id == t.tabMap[r].0
        ensures t.tabMap[r].1 in Ids(t'.session.spaces[i].tabs.tabs)
                && 0 <= t.tabMap[r].1 < t'.session.spaces[i].tabs.next
      {
        var space' := t'.session.spaces[i];
        var space :| space in t.session.spaces && space.id == space'.id && space.tabs.tabs == space'.tabs.tabs
          && space.tabs.next == space'.tabs.next;
        var j :| 0 <= j < |t.session.spaces| && t.session.spaces[j] == space;
      }
    }
    hide Ids;
    assert Entered(t'.session, t'.tabMap);
  }

  lemma CloseGoneKeeps(t: Topology, live: set<string>, order: seq<string>)
    requires TopologyOk(t)
    ensures var (session, removed) := CloseRemoved(t.session, t.spaceMap, live, order);
            var t' := EraseAll(t.(session := session), removed);
            && TopologyOk(t')
            && (forall r :: r in t.spaceMap && r in live ==> r in t'.spaceMap)
  {
    hide CloseRemoved;
    hide SpacesOk;
    hide Entered;
    hide Held;
    hide EraseAll;
    hide SpaceIds;
    var (session, removed) := CloseRemoved(t.session, t.spaceMap, live, order);
    CloseRemovedShrinks(t.session, t.spaceMap, live, order);
    EraseAllLaw(t.(session := session), removed);
    hide Shrunk;
    var t' := EraseAll(t.(session := session), removed);
    assert SpacesBound(t');
    hide SpacesBound;
    ShrunkKeeps(t, t');
  }

  lemma RenameKeeps(s: Spaces, id: int, name: string, root: string)
    requires SpacesOk(s)
    ensures SameStructure(s, SetSpaceRoot(RenameSpace(s, id, name), id, root))
  {
    var s1 := RenameSpace(s, id, name);
    assert SpaceIds(s1.spaces) == SpaceIds(s.spaces);
    var s2 := SetSpaceRoot(s1, id, root);
    assert SpaceIds(s2.spaces) == SpaceIds(s1.spaces);
    hide TabsOk;
  }

  lemma {:induction false} RenameAllKeeps(t: Topology, snap: seq<RemoteSpace>, k: nat)
    requires TopologyOk(t) && k <= |snap|
    ensures var t' := Rename(t, snap, k);
            TopologyOk(t') && t' == t.(session := t'.session)
  {
    if k > 0 {
      RenameAllKeeps(t, snap, k - 1);
      var t1 := Rename(t, snap, k - 1);
      var remote := snap[k - 1];
      hide SpacesBound;
      hide Entered;
      hide Held;
      if remote.id in t1.spaceMap {
        RenameKeeps(t1.session, t1.spaceMap[remote.id], remote.name, remote.root);
        hide SpacesOk;
        StructureShrinks(t1.session, Rename(t, snap, k).session);
        hide RenameSpace;
        hide SetSpaceRoot;
        hide Shrunk;
        StructureBound(t1, Rename(t, snap, k));
        ShrunkKeeps(t1, Rename(t, snap, k));
      }
    }
  }

  lemma StructureBound(t: Topology, t': Topology)
    requires SpacesBound(t) && SameStructure(t.session, t'.session) && t'.spaceMap == t.spaceMap
             && t'.localMap == t.localMap
    ensures SpacesBound(t')
  {
    hide SpacesOk;
    hide SpaceIds;
  }

  lemma ApplySpacesKeeps(t: Topology, snap: seq<RemoteSpace>, order: seq<string>)
    requires TopologyOk(t)
    ensures var (t', ok) := ApplySpaces(t, snap, order);
            TopologyOk(t') && (ok ==> forall i :: 0 <= i < |snap| ==> snap[i].id in t'.spaceMap)
  {
    hide CreateMissing;
    hide CloseRemoved;
    hide EraseAll;
    hide Rename;
    hide TopologyOk;
    if snap != [] {
      if t.spaceMap == map[] { FirstBound(t, snap[0].id); }
      var t1 := if t.spaceMap == map[] then BindSpace(t, snap[0].id, t.session.active) else t;
      CreateMissingKeeps(t1, snap, |snap|);
      var (t2, ok) := CreateMissing(t1, snap, |snap|);
      if ok {
        CloseGoneKeeps(t2, LiveSpaces(snap), order);
        var (session, removed) := CloseRemoved(t2.session, t2.spaceMap, LiveSpaces(snap), order);
        var t3 := EraseAll(t2.(session := session), removed);
        RenameAllKeeps(t3, snap, |snap|);
        forall i | 0 <= i < |snap| ensures snap[i].id in t3.spaceMap {
          assert snap[i].id in LiveSpaces(snap);
        }
      }
    }
  }

  lemma Unbound(t: Topology, local: int)
    requires SpacesBound(t) && t.spaceMap == map[]
    ensures local !in t.localMap
  {}

  lemma FirstBound(t: Topology, remote: string)
    requires TopologyOk(t) && t.spaceMap == map[]
    ensures TopologyOk(BindSpace(t, remote, t.session.active))
  {
    hide TabsOk;
    hide SpaceIds;
    hide Entered;
    hide Held;
    Unbound(t, t.session.active);
    BindFresh(t, remote, t.session.active);
  }

  // ---------------------------------------------------------------------------
  // Runs

  datatype Step = Step(snap: seq<RemoteSpace>, outcomes: Outcomes, spaceOrder: seq<string>, tabOrder: seq<string>)

  /// Snapshots applied one after the other, from an unbound projection of any
  /// well-formed session.
  ghost predicate Run(states: seq<Topology>, steps: seq<Step>) {
    && |states| == |steps| + 1
    && SpacesOk(states[0].session) && states[0].spaceMap == map[] && states[0].localMap == map[]
    && states[0].tabMap == map[]
    && forall k :: 0 <= k < |steps| ==>
         && UniqueSpaces(steps[k].snap)
         && states[k + 1] ==
           ApplySnapshot(states[k], steps[k].snap, steps[k].outcomes, steps[k].spaceOrder, steps[k].tabOrder).0
  }

  /// The state in which the tab phase of a step starts, if it starts.
  ghost function BeforeTabs(t: Topology, step: Step): Topology {
    ApplySpaces(t, step.snap, step.spaceOrder).0
  }

  lemma SnapshotKeeps(t: Topology, step: Step)
    requires TopologyOk(t) && UniqueSpaces(step.snap)
    ensures var t' := ApplySnapshot(t, step.snap, step.outcomes, step.spaceOrder, step.tabOrder).0;
            && TopologyOk(t')
            && (ApplySpaces(t, step.snap, step.spaceOrder).1 && Resolvable(BeforeTabs(t, step), step.snap) ==>
                  NoneDangles(t') && t'.tabMap.Keys <= LiveTabs(step.snap))
  {
    hide ApplySpaces;
    hide ApplyTabs;
    hide TopologyOk;
    hide NoneDangles;
    hide Resolvable;
    hide UniqueSpaces;
    ApplySpacesKeeps(t, step.snap, step.spaceOrder);
    ApplyTabsKeeps(BeforeTabs(t, step), step.snap, step.outcomes, step.tabOrder);
  }

  /// Throughout a run the remote-to-local tab map is injective, and after each
  /// snapshot whose tab phase ran, each entry names a live local tab.
  lemma {:induction false} RunKeepsTopology(states: seq<Topology>, steps: seq<Step>, k: nat)
    requires Run(states, steps) && k < |states|
    ensures TopologyOk(states[k])
    ensures k > 0 && ApplySpaces(states[k - 1], steps[k - 1].snap, steps[k - 1].spaceOrder).1
            && Resolvable(BeforeTabs(states[k - 1], steps[k - 1]), steps[k - 1].snap) ==>
              NoneDangles(states[k]) && states[k].tabMap.Keys <= LiveTabs(steps[k - 1].snap)
  {
    hide ApplySnapshot;
    hide NoneDangles;
    hide Resolvable;
    hide UniqueSpaces;
    hide BeforeTabs;
    hide SpacesOk;
    if k > 0 {
      hide TopologyOk;
      RunKeepsTopology(states, steps, k - 1);
      SnapshotKeeps(states[k - 1], steps[k - 1]);
    }
  }
}
