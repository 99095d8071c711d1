/** Saving a session, restoring it and saving it again. */
module SessionRoundTrip {
  import opened Identifiers
  import opened SplitTrees
  import opened PaneModel
  import opened PaneInvariants
  import opened PaneRoundTrip
  import opened TabModel
  import opened TabControllers
  import opened SpaceModel
  import opened SessionRestore

  // ---------------------------------------------------------------------------
  // Tabs

  ghost predicate TabSound(tab: Tab) {
    tab.name != "" && Sound(tab.panes)
  }

  ghost predicate TabSavedWell(snap: TabSnapshot) {
    snap.name != "" && WellSaved(snap.layout)
  }

  /// Every host of a restored tab starts.
  ghost predicate TabStarts(deps: Deps, snap: TabSnapshot, factory: LeafId -> HostMaker) {
    AllStart(deps, snap.layout.panes, factory)
  }

  /// The tab's focus is not behind its zoom and every pane survives a restore and
  /// a second save.
  ghost predicate TabSurvives(deps: Deps, snap: TabSnapshot, cwd: LeafId -> string) {
    FocusVisible(snap.layout) && PanesSurvive(deps, snap.layout, cwd)
  }

  lemma SaveTabLaw(tab: Tab, cwd: LeafId -> string)
    requires TabSound(tab)
    ensures SaveTab(tab, cwd).Some? <==> Housed(tab.panes)
    ensures Housed(tab.panes) ==> TabSavedWell(SaveTab(tab, cwd).value) && SaveTab(tab, cwd).value.id == tab.id
  {
    SavedWhenHoused(tab.panes, cwd);
    hide Housed;
    hide SnapshotLayout;
    hide WellSaved;
    if Housed(tab.panes) {
      SnapshotIsWellSaved(tab.panes, cwd);
    }
  }

  /// A restored tab saves as it was saved before exactly when it survives.
  lemma TabSavedAgain(deps: Deps, snap: TabSnapshot, factory: LeafId -> HostMaker, cwd: LeafId -> string)
    requires TabSavedWell(snap) && TabStarts(deps, snap, factory)
    ensures var r := RestoreTab(deps, snap, factory);
            && r.Some? && r.value.id == snap.id
            && (SaveTab(r.value, cwd) == Some(snap) <==> TabSurvives(deps, snap, cwd))
  {
    hide RestoreLayout;
    hide SnapshotLayout;
    hide WellSaved;
    hide AllStart;
    hide Consistent;
    hide ZoomShown;
    hide PanesSurvive;
    hide Settled;
    LayoutSavedAgain(deps, snap.layout, factory, cwd);
  }

  // ---------------------------------------------------------------------------
  // Sequences of tabs

  lemma {:induction false} SaveTabsPointwise(tabs: seq<Tab>, snaps: seq<TabSnapshot>, cwd: int -> LeafId -> string)
    ensures SaveTabs(tabs, cwd) == Some(snaps) <==>
              |tabs| == |snaps| && forall i :: 0 <= i < |tabs| ==> SaveTab(tabs[i], cwd(tabs[i].id)) == Some(snaps[i])
  {
    hide SaveTab;
    if tabs != [] {
      var front, last := tabs[..|tabs| - 1], tabs[|tabs| - 1];
      if SaveTabs(tabs, cwd) == Some(snaps) {
        SaveTabsPointwise(front, snaps[..|snaps| - 1], cwd);
      }
      if |tabs| == |snaps| && forall i :: 0 <= i < |tabs| ==> SaveTab(tabs[i], cwd(tabs[i].id)) == Some(snaps[i]) {
        SaveTabsPointwise(front, snaps[..|snaps| - 1], cwd);
        assert snaps == snaps[..|snaps| - 1] + [snaps[|snaps| - 1]];
      }
    }
  }

  lemma {:induction false} AllTabsSurvive(deps: Deps, snaps: seq<TabSnapshot>, factory: int -> LeafId -> HostMaker)
    requires forall i :: 0 <= i < |snaps| ==> RestoreTab(deps, snaps[i], factory(snaps[i].id)).Some?
    ensures |Survivors(deps, snaps, factory)| == |snaps|
    ensures forall i :: 0 <= i < |snaps| ==>
              Survivors(deps, snaps, factory)[i] == RestoreTab(deps, snaps[i], factory(snaps[i].id)).value
  {
    hide RestoreTab;
    if snaps != [] {
      AllTabsSurvive(deps, snaps[..|snaps| - 1], factory);
    }
  }

  ghost predicate TabsHoused(tabs: seq<Tab>) {
    forall i :: 0 <= i < |tabs| ==> Housed(tabs[i].panes)
  }

  /// The tabs are saved exactly when every leaf of each of them has its host.
  lemma {:induction false} SaveTabsLaw(tabs: seq<Tab>, cwd: int -> LeafId -> string)
    requires forall i :: 0 <= i < |tabs| ==> TabSound(tabs[i])
    ensures var saved := SaveTabs(tabs, cwd);
            && (saved.Some? <==> TabsHoused(tabs))
            && (saved.Some? ==> SnapIds(saved.value) == Ids(tabs)
                                && forall i :: 0 <= i < |saved.value| ==> TabSavedWell(saved.value[i]))
  {
    hide SaveTab;
    hide TabSound;
    hide TabSavedWell;
    hide Housed;
    if tabs != [] {
      var front, last := tabs[..|tabs| - 1], tabs[|tabs| - 1];
      SaveTabsLaw(front, cwd);
      SaveTabLaw(last, cwd(last.id));
      assert TabsHoused(tabs) <==> TabsHoused(front) && Housed(last.panes);
    }
  }

  ghost predicate TabsSurvive(deps: Deps, snaps: seq<TabSnapshot>, cwd: int -> LeafId -> string) {
    forall i :: 0 <= i < |snaps| ==> TabSurvives(deps, snaps[i], cwd(snaps[i].id))
  }

  lemma TabsSavedAgain(deps: Deps, snaps: seq<TabSnapshot>, factory: int -> LeafId -> HostMaker,
                       cwd: int -> LeafId -> string)
    requires forall i :: 0 <= i < |snaps| ==> TabSavedWell(snaps[i]) && TabStarts(deps, snaps[i], factory(snaps[i].id))
    ensures var tabs := Survivors(deps, snaps, factory);
            && |tabs| == |snaps| && Ids(tabs) == SnapIds(snaps)
            && (SaveTabs(tabs, cwd) == Some(snaps) <==> TabsSurvive(deps, snaps, cwd))
  {
    hide TabSavedWell;
    hide TabStarts;
    hide TabSurvives;
    hide RestoreTab;
    hide SaveTab;
    hide Survivors;
    hide SaveTabs;
    forall i | 0 <= i < |snaps|
      ensures var r := RestoreTab(deps, snaps[i], factory(snaps[i].id));
              r.Some? && r.value.id == snaps[i].id
              && (SaveTab(r.value, cwd(snaps[i].id)) == Some(snaps[i]) <==>
                  TabSurvives(deps, snaps[i], cwd(snaps[i].id)))
    {
      TabSavedAgain(deps, snaps[i], factory(snaps[i].id), cwd(snaps[i].id));
    }
    AllTabsSurvive(deps, snaps, factory);
    var tabs := Survivors(deps, snaps, factory);
    SaveTabsPointwise(tabs, snaps, cwd);
    assert Ids(tabs) == SnapIds(snaps);
  }

  // ---------------------------------------------------------------------------
  // Spaces

  ghost predicate SpaceSound(space: Space) {
    && space.name != "" && TabsOk(space.tabs) && space.tabs.active in Ids(space.tabs.tabs)
    && forall i :: 0 <= i < |space.tabs.tabs| ==> TabSound(space.tabs.tabs[i])
  }

  /// A Space as it is saved: its active tab is one of its tabs and its counter is
  /// above all of them.
  ghost predicate SpaceSavedWell(snap: SpaceSnapshot) {
    && snap.name != "" && UsableIds(SnapIds(snap.tabs)) && snap.active in SnapIds(snap.tabs)
    && MaxOf(SnapIds(snap.tabs)) < snap.next <= LIMIT
    && forall i :: 0 <= i < |snap.tabs| ==> TabSavedWell(snap.tabs[i])
  }

  ghost predicate SpaceStarts(deps: Deps, snap: SpaceSnapshot, factory: int -> LeafId -> HostMaker) {
    forall i :: 0 <= i < |snap.tabs| ==> TabStarts(deps, snap.tabs[i], factory(snap.tabs[i].id))
  }

  lemma SaveSpaceLaw(space: Space, cwd: int -> LeafId -> string)
    requires SpaceSound(space)
    ensures SaveSpace(space, cwd).Some? <==> TabsHoused(space.tabs.tabs)
    ensures SaveSpace(space, cwd).Some? ==>
              SpaceSavedWell(SaveSpace(space, cwd).value) && SaveSpace(space, cwd).value.id == space.id
  {
    hide TabSound;
    hide TabsHoused;
    hide TabSavedWell;
    SaveTabsLaw(space.tabs.tabs, cwd);
    hide SaveTabs;
    BoundedIds(space.tabs);
  }

  lemma BoundedIds(t: Tabs)
    requires TabsOk(t) && |t.tabs| > 0
    ensures UsableIds(Ids(t.tabs)) && MaxOf(Ids(t.tabs)) < t.next
  {
    hide MaxOf;
    assert forall i :: 0 <= i < |t.tabs| ==> 0 <= Ids(t.tabs)[i] < t.next;
    assert Ids(t.tabs)[0] <= MaxOf(Ids(t.tabs));
  }

  /// A saved Space whose tabs all come back is restored with its identifier, name,
  /// root, active tab and counter.
  lemma SpaceComesBack(deps: Deps, snap: SpaceSnapshot, factory: int -> LeafId -> HostMaker)
    requires SpaceSavedWell(snap) && Ids(Survivors(deps, snap.tabs, factory)) == SnapIds(snap.tabs)
    ensures RestoreSpace(deps, snap, factory) ==
              Some(Space(snap.id, snap.name, snap.root,
                         Tabs(Survivors(deps, snap.tabs, factory), snap.active, snap.next, false)))
  {
    hide TabSavedWell;
    hide Survivors;
    hide MaxOf;
    assert |Survivors(deps, snap.tabs, factory)| == |Ids(Survivors(deps, snap.tabs, factory))| == |snap.tabs|;
    hide Ids;
    hide SnapIds;
  }

  /// And it saves as before exactly when its tabs survive.
  lemma SpaceSavedAgain(deps: Deps, snap: SpaceSnapshot, factory: int -> LeafId -> HostMaker,
                        cwd: int -> LeafId -> string)
    requires SpaceSavedWell(snap) && SpaceStarts(deps, snap, factory)
    ensures var r := RestoreSpace(deps, snap, factory);
            && r.Some? && r.value.id == snap.id
            && (SaveSpace(r.value, cwd) == Some(snap) <==> TabsSurvive(deps, snap.tabs, cwd))
  {
    hide TabSavedWell;
    hide TabStarts;
    hide TabsSurvive;
    hide Survivors;
    hide SaveTabs;
    hide MaxOf;
    hide Ids;
    hide SnapIds;
    TabsSavedAgain(deps, snap.tabs, factory, cwd);
    SpaceComesBack(deps, snap, factory);
    hide SpaceSavedWell;
    hide RestoreSpace;
  }

  lemma {:induction false} SaveSpacesPointwise(spaces: seq<Space>, snaps: seq<SpaceSnapshot>,
                                               cwd: int -> int -> LeafId -> string)
    ensures SaveSpaces(spaces, cwd) == Some(snaps) <==>
              |spaces| == |snaps| && forall i :: 0 <= i < |spaces| ==>
                SaveSpace(spaces[i], cwd(spaces[i].id)) == Some(snaps[i])
  {
    hide SaveSpace;
    if spaces != [] {
      var front, last := spaces[..|spaces| - 1], spaces[|spaces| - 1];
      if SaveSpaces(spaces, cwd) == Some(snaps) {
        SaveSpacesPointwise(front, snaps[..|snaps| - 1], cwd);
      }
      if |spaces| == |snaps| && forall i :: 0 <= i < |spaces| ==>
        SaveSpace(spaces[i], cwd(spaces[i].id)) == Some(snaps[i]) {
        SaveSpacesPointwise(front, snaps[..|snaps| - 1], cwd);
        assert snaps == snaps[..|snaps| - 1] + [snaps[|snaps| - 1]];
      }
    }
  }

  lemma {:induction false} AllSpacesSurvive(deps: Deps, snaps: seq<SpaceSnapshot>, factory: Factory)
    requires forall i :: 0 <= i < |snaps| ==> RestoreSpace(deps, snaps[i], factory(snaps[i].id)).Some?
    ensures |SurvivingSpaces(deps, snaps, factory)| == |snaps|
    ensures forall i :: 0 <= i < |snaps| ==>
              SurvivingSpaces(deps, snaps, factory)[i] == RestoreSpace(deps, snaps[i], factory(snaps[i].id)).value
  {
    hide RestoreSpace;
    if snaps != [] {
      AllSpacesSurvive(deps, snaps[..|snaps| - 1], factory);
    }
  }

  ghost predicate SpacesHoused(spaces: seq<Space>) {
    forall i :: 0 <= i < |spaces| ==> TabsHoused(spaces[i].tabs.tabs)
  }

  /// A session is saved exactly when every leaf of every tab has its host: one pane
  /// without a host keeps the whole session from being saved.
  lemma {:induction false} SaveSpacesLaw(spaces: seq<Space>, cwd: int -> int -> LeafId -> string)
    requires forall i :: 0 <= i < |spaces| ==> SpaceSound(spaces[i])
    ensures var saved := SaveSpaces(spaces, cwd);
            && (saved.Some? <==> SpacesHoused(spaces))
            && (saved.Some? ==> SpaceSnapIds(saved.value) == SpaceIds(spaces)
                                && forall i :: 0 <= i < |saved.value| ==> SpaceSavedWell(saved.value[i]))
  {
    hide SaveSpace;
    hide SpaceSound;
    hide SpaceSavedWell;
    hide TabsHoused;
    if spaces != [] {
      var front, last := spaces[..|spaces| - 1], spaces[|spaces| - 1];
      SaveSpacesLaw(front, cwd);
      SaveSpaceLaw(last, cwd(last.id));
      assert SpacesHoused(spaces) <==> SpacesHoused(front) && TabsHoused(last.tabs.tabs);
    }
  }

  // ---------------------------------------------------------------------------
  // The session

  ghost predicate AllSpacesStart(deps: Deps, snaps: seq<SpaceSnapshot>, factory: Factory) {
    forall i :: 0 <= i < |snaps| ==> SpaceStarts(deps, snaps[i], factory(snaps[i].id))
  }

  ghost predicate SessionSurvives(deps: Deps, snaps: seq<SpaceSnapshot>, cwd: int -> int -> LeafId -> string) {
    forall i :: 0 <= i < |snaps| ==> TabsSurvive(deps, snaps[i].tabs, cwd(snaps[i].id))
  }

  lemma SurvivorsSavedAgain(deps: Deps, snaps: seq<SpaceSnapshot>, factory: Factory,
                            cwd: int -> int -> LeafId -> string)
    requires forall i :: 0 <= i < |snaps| ==> SpaceSavedWell(snaps[i])
    requires AllSpacesStart(deps, snaps, factory)
    ensures var spaces := SurvivingSpaces(deps, snaps, factory);
            && |spaces| == |snaps| && SpaceIds(spaces) == SpaceSnapIds(snaps)
            && (SaveSpaces(spaces, cwd) == Some(snaps) <==> SessionSurvives(deps, snaps, cwd))
  {
    hide SpaceSavedWell;
    hide SpaceStarts;
    hide TabsSurvive;
    hide RestoreSpace;
    hide SaveSpace;
    hide SurvivingSpaces;
    hide SaveSpaces;
    forall i | 0 <= i < |snaps|
      ensures var r := RestoreSpace(deps, snaps[i], factory(snaps[i].id));
              r.Some? && r.value.id == snaps[i].id
              && (SaveSpace(r.value, cwd(snaps[i].id)) == Some(snaps[i]) <==>
                  TabsSurvive(deps, snaps[i].tabs, cwd(snaps[i].id)))
    {
      SpaceSavedAgain(deps, snaps[i], factory(snaps[i].id), cwd(snaps[i].id));
    }
    AllSpacesSurvive(deps, snaps, factory);
    var spaces := SurvivingSpaces(deps, snaps, factory);
    SaveSpacesPointwise(spaces, snaps, cwd);
    assert SpaceIds(spaces) == SpaceSnapIds(snaps);
  }

  /// Entering a Space changes nothing that is saved.
  lemma FocusIsNotSaved(a: Space, b: Space, cwd: int -> LeafId -> string)
    requires b == a.(tabs := a.tabs.(focusEnabled := b.tabs.focusEnabled))
    ensures SaveSpace(b, cwd) == SaveSpace(a, cwd)
  {
    hide SaveTabs;
  }

  lemma EnteredSavesAlike(s: Spaces, id: int, snaps: seq<SpaceSnapshot>, cwd: int -> int -> LeafId -> string)
    ensures SaveSpaces(ActivateSpace(s, id).0.spaces, cwd) == Some(snaps) <==> SaveSpaces(s.spaces, cwd) == Some(snaps)
  {
    var spaces := ActivateSpace(s, id).0.spaces;
    EnteredPointwise(s, id);
    hide ActivateSpace;
    hide SaveSpaces;
    forall i | 0 <= i < |spaces|
      ensures SaveSpace(spaces[i], cwd(spaces[i].id)) == SaveSpace(s.spaces[i], cwd(s.spaces[i].id))
    {
      FocusIsNotSaved(s.spaces[i], spaces[i], cwd(s.spaces[i].id));
    }
    hide SaveSpace;
    SaveSpacesPointwise(spaces, snaps, cwd);
    SaveSpacesPointwise(s.spaces, snaps, cwd);
  }

  lemma EnteredPointwise(s: Spaces, id: int)
    ensures var spaces := ActivateSpace(s, id).0.spaces;
            && |spaces| == |s.spaces|
            && forall i :: 0 <= i < |spaces| ==>
                 spaces[i] == s.spaces[i].(tabs := s.spaces[i].tabs.(focusEnabled := spaces[i].tabs.focusEnabled))
  {
    hide ActiveTab;
    hide IndexOfSpace;
  }

  /// A session whose tabs are sound is saved exactly when every leaf of every tab has
  /// its host. Save, restore over any live session, and save again: the active Space,
  /// the counter and every identifier come back, and the second snapshot is the first
  /// exactly when every tab survives.
  lemma SessionRoundTrip(s: Spaces, cwd: int -> int -> LeafId -> string, other: Spaces, deps: Deps,
                         factory: Factory, tag: HostId -> (int, int), cwd2: int -> int -> LeafId -> string)
    requires SpacesOk(s) && (forall i :: 0 <= i < |s.spaces| ==> SpaceSound(s.spaces[i]))
    requires MakersApart(factory, tag)
    requires SaveSpaces(s.spaces, cwd).Some? ==> AllSpacesStart(deps, SaveSpaces(s.spaces, cwd).value, factory)
    ensures SaveSpaces(s.spaces, cwd).Some? <==> SpacesHoused(s.spaces)
    ensures SpacesHoused(s.spaces) ==>
              var saved := SaveSpaces(s.spaces, cwd).value;
              var r := RestoreSpaces(other, deps, saved, s.active, s.next, factory);
              && r.Restored? && r.session.active == s.active && r.session.next == s.next
              && SpaceIds(r.session.spaces) == SpaceIds(s.spaces)
              && (SaveSpaces(r.session.spaces, cwd2) == Some(saved) <==> SessionSurvives(deps, saved, cwd2))
  {
    hide SpaceSound;
    hide SpaceSavedWell;
    hide AllSpacesStart;
    hide SessionSurvives;
    hide MakersApart;
    hide TabsOk;
    hide RestoreSpaces;
    hide SpacesHoused;
    SaveSpacesLaw(s.spaces, cwd);
    SpaceIdsUsable(s);
    hide MaxOf;
    hide SaveSpaces;
    if SpacesHoused(s.spaces) {
      SavedComesBack(other, deps, SaveSpaces(s.spaces, cwd).value, s.active, s.next, factory, tag, cwd2);
    }
  }

  lemma SavedComesBack(other: Spaces, deps: Deps, saved: seq<SpaceSnapshot>, active: int, next: int,
                       factory: Factory, tag: HostId -> (int, int), cwd: int -> int -> LeafId -> string)
    requires |saved| > 0 && UsableIds(SpaceSnapIds(saved)) && active in SpaceSnapIds(saved)
             && MaxOf(SpaceSnapIds(saved)) < next <= LIMIT
    requires forall i :: 0 <= i < |saved| ==> SpaceSavedWell(saved[i])
    requires AllSpacesStart(deps, saved, factory) && MakersApart(factory, tag)
    ensures var r := RestoreSpaces(other, deps, saved, active, next, factory);
            && r.Restored? && r.session.active == active && r.session.next == next
            && SpaceIds(r.session.spaces) == SpaceSnapIds(saved)
            && (SaveSpaces(r.session.spaces, cwd) == Some(saved) <==> SessionSurvives(deps, saved, cwd))
  {
    hide SpaceSavedWell;
    hide AllSpacesStart;
    hide SessionSurvives;
    hide MakersApart;
    hide GlobalFocus;
    hide SaveSpaces;
    hide MaxOf;
    hide SurvivingSpaces;
    hide RestoreSpaces;
    hide ActivateSpace;
    hide UsableIds;
    SurvivorsSavedAgain(deps, saved, factory, cwd);
    var candidates := SurvivingSpaces(deps, saved, factory);
    RestoreSpacesLaw(other, deps, saved, active, next, factory, tag);
    RestoreSteps(other, deps, saved, active, next, factory);
    EnteredSavesAlike(Spaces(candidates, -1, next), active, saved, cwd);
    CounterKept(Spaces(candidates, -1, next), active);
  }

  lemma CounterKept(s: Spaces, id: int)
    ensures ActivateSpace(s, id).0.next == s.next
  {
    hide ActiveTab;
  }

  lemma SpaceIdsUsable(s: Spaces)
    requires SpacesOk(s)
    ensures UsableIds(SpaceIds(s.spaces)) && MaxOf(SpaceIds(s.spaces)) + 1 <= s.next <= LIMIT && |s.spaces| > 0
  {
    hide TabsOk;
    hide MaxOf;
    assert forall i :: 0 <= i < |s.spaces| ==> 0 <= SpaceIds(s.spaces)[i] < s.next;
  }
}
