/** Restoring a session is a transaction: it is refused and changes nothing, or it
    commits and everything the controllers rely on holds. */
module SessionRestore {
  import opened Identifiers
  import opened SplitTrees
  import opened PaneModel
  import opened TabModel
  import opened TabControllers
  import opened SpaceModel

  // ---------------------------------------------------------------------------
  // Whose hosts are whose

  /// Every host a maker can yield carries the tag.
  ghost predicate Yields(m: HostMaker, tag: HostId -> (int, int), t: (int, int)) {
    (m.provider.Some? ==> tag(m.provider.value) == t) && tag(m.placeholder) == t
  }

  ghost predicate Tagged(p: Panes, tag: HostId -> (int, int), t: (int, int)) {
    forall h :: h in p.hosts.Values ==> tag(h) == t
  }

  /// Host objects made for different tabs, or tabs of different Spaces, differ.
  ghost predicate MakersApart(factory: Factory, tag: HostId -> (int, int)) {
    forall s, t, leaf :: Yields(factory(s)(t)(leaf), tag, (s, t))
  }

  lemma RestorePaneTagged(p: Panes, deps: Deps, pane: PaneSnapshot, primary: bool, m: HostMaker,
                          tag: HostId -> (int, int), t: (int, int))
    requires Tagged(p, tag, t) && Yields(m, tag, t)
    ensures Tagged(RestorePane(p, deps, pane, primary, m).0, tag, t)
  {
    hide RuntimeLaunch;
    hide Completed;
    hide RaisedSerial;
    hide TreeLeaves;
    hide Put;
    hide ProjectsClientHost;
  }

  lemma {:induction false} RestorePanesTagged(p: Panes, deps: Deps, panes: seq<PaneSnapshot>, k: nat,
                                              factory: LeafId -> HostMaker,
                                              tag: HostId -> (int, int), t: (int, int))
    requires k <= |panes| && Tagged(p, tag, t) && forall leaf :: Yields(factory(leaf), tag, t)
    ensures Tagged(RestorePanes(p, deps, panes, k, factory).0, tag, t)
  {
    hide RestorePane;
    hide Tagged;
    if k > 0 {
      RestorePanesTagged(p, deps, panes, k - 1, factory, tag, t);
      var (q, ok) := RestorePanes(p, deps, panes, k - 1, factory);
      if ok { RestorePaneTagged(q, deps, panes[k - 1], k - 1 == 0, factory(panes[k - 1].leaf), tag, t); }
    }
  }

  lemma NothingShutDown()
    ensures Shutdown(NO_PANES) == NO_PANES
  {}

  lemma ZoomTagged(p: Panes, saved: LayoutSnapshot, tag: HostId -> (int, int), t: (int, int))
    requires Tagged(p, tag, t)
    ensures Tagged(RestoreZoom(p, saved), tag, t)
  {
    hide SetFocused;
  }

  lemma RestoreTabTagged(deps: Deps, snap: TabSnapshot, factory: LeafId -> HostMaker, tag: HostId -> (int, int),
                         t: (int, int))
    requires forall leaf :: Yields(factory(leaf), tag, t)
    ensures RestoreTab(deps, snap, factory).Some? ==>
              RestoreTab(deps, snap, factory).value.id == snap.id
                && Tagged(RestoreTab(deps, snap, factory).value.panes, tag, t)
  {
    hide RestorePanes;
    hide Restore;
    hide Shutdown;
    if Restore(snap.layout.tree).Some? {
      NothingShutDown();
      var base := NO_PANES.(tree := Restore(snap.layout.tree).value);
      RestorePanesTagged(base, deps, snap.layout.panes, |snap.layout.panes|, factory, tag, t);
      ZoomTagged(RestorePanes(base, deps, snap.layout.panes, |snap.layout.panes|, factory).0, snap.layout, tag, t);
      hide RestoreZoom;
      hide Tagged;
    }
  }

  // ---------------------------------------------------------------------------
  // The tabs of one Space

  /// What the tabs that come back have in common.
  ghost predicate TabsBack(tabs: seq<Tab>, ids: seq<int>, space: int, tag: HostId -> (int, int)) {
    && Distinct(Ids(tabs))
    && (forall i :: 0 <= i < |tabs| ==> tabs[i].id in ids && Tagged(tabs[i].panes, tag, (space, tabs[i].id)))
  }

  lemma {:induction false} SurvivorsBack(deps: Deps, snaps: seq<TabSnapshot>, factory: int -> LeafId -> HostMaker,
                                         space: int, tag: HostId -> (int, int))
    requires UsableIds(SnapIds(snaps))
    requires forall t, leaf :: Yields(factory(t)(leaf), tag, (space, t))
    ensures TabsBack(Survivors(deps, snaps, factory), SnapIds(snaps), space, tag)
  {
    hide RestoreTab;
    hide Tagged;
    hide Yields;
    if snaps != [] {
      var front, last := snaps[..|snaps| - 1], snaps[|snaps| - 1];
      assert SnapIds(snaps) == SnapIds(front) + [last.id];
      SurvivorsBack(deps, front, factory, space, tag);
      RestoreTabTagged(deps, last, factory(last.id), tag, (space, last.id));
      assert last.id !in SnapIds(front);
      if RestoreTab(deps, last, factory(last.id)).Some? {
        OneMoreBack(Survivors(deps, front, factory), RestoreTab(deps, last, factory(last.id)).value, SnapIds(front),
                    space, tag);
      } else {
        assert Survivors(deps, snaps, factory) == Survivors(deps, front, factory);
      }
    }
  }

  lemma OneMoreBack(tabs: seq<Tab>, tab: Tab, ids: seq<int>, space: int, tag: HostId -> (int, int))
    requires TabsBack(tabs, ids, space, tag) && tab.id !in ids && Tagged(tab.panes, tag, (space, tab.id))
    ensures TabsBack(tabs + [tab], ids + [tab.id], space, tag)
  {
    hide Tagged;
    assert Ids(tabs + [tab]) == Ids(tabs) + [tab.id];
  }

  lemma BackAreApart(tabs: seq<Tab>, ids: seq<int>, space: int, tag: HostId -> (int, int))
    requires TabsBack(tabs, ids, space, tag)
    ensures DisjointHosts(tabs)
    ensures forall h :: h in HostsOf(tabs) ==> tag(h).0 == space
  {
    forall i, j | 0 <= i < j < |tabs| ensures tabs[i].panes.hosts.Values !! tabs[j].panes.hosts.Values {
      assert Ids(tabs)[i] != Ids(tabs)[j];
      assert Tagged(tabs[i].panes, tag, (space, tabs[i].id)) && Tagged(tabs[j].panes, tag, (space, tabs[j].id));
    }
    forall h | h in HostsOf(tabs) ensures tag(h).0 == space {
      var i :| 0 <= i < |tabs| && h in tabs[i].panes.hosts.Values;
      assert Tagged(tabs[i].panes, tag, (space, tabs[i].id));
    }
  }

  /// A tab restore that succeeds leaves an active tab, identifiers that differ and
  /// a counter above every saved identifier, even of a tab that was skipped; one
  /// that fails changes nothing.
  lemma RestoreTabsLaw(t: Tabs, deps: Deps, snaps: seq<TabSnapshot>, active: int, next: int,
                       factory: int -> LeafId -> HostMaker, strict: bool, space: int, tag: HostId -> (int, int))
    requires forall t, leaf :: Yields(factory(t)(leaf), tag, (space, t))
    ensures var (t', ok) := RestoreTabs(t, deps, snaps, active, next, factory, strict);
            if !ok then t' == t
            else
              && TabsOk(t') && ActiveTab(t').Some? && t'.focusEnabled == t.focusEnabled
              && DisjointHosts(t'.tabs) && (forall h :: h in HostsOf(t'.tabs) ==> tag(h).0 == space)
              && (forall i :: 0 <= i < |snaps| ==> snaps[i].id < t'.next)
              && (active in Ids(t'.tabs) ==> t'.active == active)
              && (strict ==> |t'.tabs| == |snaps|)
  {
    hide Yields;
    hide Survivors;
    hide TabsBack;
    hide HostsOf;
    hide DisjointHosts;
    var (t', ok) := RestoreTabs(t, deps, snaps, active, next, factory, strict);
    if ok {
      SurvivorsBack(deps, snaps, factory, space, tag);
      SurvivorsBounded(deps, snaps, factory);
      BackAreApart(t'.tabs, SnapIds(snaps), space, tag);
      NextAboveAll(SnapIds(snaps));
      RestoredTabsOk(t', SnapIds(snaps), space, tag);
    }
  }

  lemma NextAboveAll(ids: seq<int>)
    requires UsableIds(ids)
    ensures MaxOf(ids) + 1 <= LIMIT && forall i :: 0 <= i < |ids| ==> 0 <= ids[i] <= MaxOf(ids)
  {}

  lemma RestoredTabsOk(t: Tabs, ids: seq<int>, space: int, tag: HostId -> (int, int))
    requires TabsBack(t.tabs, ids, space, tag) && MaxOf(ids) < t.next <= LIMIT && t.active in Ids(t.tabs)
    requires forall i :: 0 <= i < |ids| ==> 0 <= ids[i] <= MaxOf(ids)
    ensures TabsOk(t) && ActiveTab(t).Some?
  {
    hide Tagged;
    hide MaxOf;
    var a := IndexOfTab(t.tabs, t.active).value;
    assert t.tabs[a].id in ids;
  }

  // ---------------------------------------------------------------------------
  // The Spaces of a session

  /// A Space as a restore leaves it before one is entered.
  ghost predicate SpaceBack(space: Space, tag: HostId -> (int, int)) {
    && TabsOk(space.tabs) && ActiveTab(space.tabs).Some? && !space.tabs.focusEnabled
    && DisjointHosts(space.tabs.tabs) && (forall h :: h in HostsOf(space.tabs.tabs) ==> tag(h).0 == space.id)
  }

  ghost predicate SpacesBack(spaces: seq<Space>, ids: seq<int>, tag: HostId -> (int, int)) {
    && Distinct(SpaceIds(spaces))
    && (forall i :: 0 <= i < |spaces| ==> spaces[i].id in ids && SpaceBack(spaces[i], tag))
  }

  lemma RestoreSpaceBack(deps: Deps, snap: SpaceSnapshot, factory: int -> LeafId -> HostMaker,
                         tag: HostId -> (int, int))
    requires forall t, leaf :: Yields(factory(t)(leaf), tag, (snap.id, t))
    ensures RestoreSpace(deps, snap, factory).Some? ==>
              RestoreSpace(deps, snap, factory).value.id == snap.id
                && SpaceBack(RestoreSpace(deps, snap, factory).value, tag)
  {
    hide RestoreTabs;
    hide HostsOf;
    hide DisjointHosts;
    hide TabsOk;
    RestoreTabsLaw(SetFocusEnabled(NO_TABS, false), deps, snap.tabs, snap.active, snap.next, factory, false, snap.id,
                   tag);
  }

  lemma {:induction false} SurvivingBack(deps: Deps, snaps: seq<SpaceSnapshot>, factory: Factory,
                                         tag: HostId -> (int, int))
    requires UsableIds(SpaceSnapIds(snaps)) && MakersApart(factory, tag)
    ensures SpacesBack(SurvivingSpaces(deps, snaps, factory), SpaceSnapIds(snaps), tag)
  {
    hide RestoreSpace;
    hide SpaceBack;
    if snaps != [] {
      var front, last := snaps[..|snaps| - 1], snaps[|snaps| - 1];
      assert SpaceSnapIds(snaps) == SpaceSnapIds(front) + [last.id];
      SurvivingBack(deps, front, factory, tag);
      RestoreSpaceBack(deps, last, factory(last.id), tag);
      assert last.id !in SpaceSnapIds(front);
      hide MakersApart;
      if RestoreSpace(deps, last, factory(last.id)).Some? {
        OneMoreSpaceBack(SurvivingSpaces(deps, front, factory), RestoreSpace(deps, last, factory(last.id)).value,
                         SpaceSnapIds(front), tag);
      } else {
        assert SurvivingSpaces(deps, snaps, factory) == SurvivingSpaces(deps, front, factory);
      }
    }
  }

  lemma OneMoreSpaceBack(spaces: seq<Space>, space: Space, ids: seq<int>, tag: HostId -> (int, int))
    requires SpacesBack(spaces, ids, tag) && space.id !in ids && SpaceBack(space, tag)
    ensures SpacesBack(spaces + [space], ids + [space.id], tag)
  {
    hide SpaceBack;
    assert SpaceIds(spaces + [space]) == SpaceIds(spaces) + [space.id];
  }

  /// A restore never gets stuck after its commit, and what it commits is well
  /// formed: identifiers differ and lie below the counter, which is at most the
  /// limit and above every saved identifier; the wanted Space is active if it came
  /// back; and focus, taken from every old host, goes to the rightful new one.
  lemma RestoreSpacesLaw(s: Spaces, deps: Deps, snaps: seq<SpaceSnapshot>, active: int, next: int, factory: Factory,
                         tag: HostId -> (int, int))
    requires MakersApart(factory, tag)
    ensures var r := RestoreSpaces(s, deps, snaps, active, next, factory);
            && !r.FailedAfterCommit?
            && (r.Refused? <==>
                |snaps| == 0 || !UsableIds(SpaceSnapIds(snaps)) || SurvivingSpaces(deps, snaps, factory) == [])
            && (r.Restored? ==>
                  && GlobalFocus(r.session, RightfulHolder(r.session))
                  && (forall i :: 0 <= i < |snaps| ==> snaps[i].id < r.session.next)
                  && SpaceIds(r.session.spaces) == SpaceIds(SurvivingSpaces(deps, snaps, factory))
                  && (active in SpaceIds(r.session.spaces) ==> r.session.active == active))
  {
    hide MakersApart;
    hide SurvivingSpaces;
    hide GlobalFocus;
    hide RightfulHolder;
    hide SpacesBack;
    hide ActivateSpace;
    var candidates := SurvivingSpaces(deps, snaps, factory);
    if |snaps| > 0 && UsableIds(SpaceSnapIds(snaps)) && |candidates| > 0 {
      SurvivingBack(deps, snaps, factory, tag);
      NextAboveAll(SpaceSnapIds(snaps));
      var top := MaxOf(SpaceSnapIds(snaps)) + 1;
      CommitLaw(candidates, ChosenSpace(candidates, active), Clamp(next, top, LIMIT), SpaceSnapIds(snaps), tag);
    }
  }

  lemma CommitLaw(candidates: seq<Space>, chosen: int, next: int, ids: seq<int>, tag: HostId -> (int, int))
    requires SpacesBack(candidates, ids, tag) && chosen in SpaceIds(candidates)
    requires MaxOf(ids) < next <= LIMIT && forall i :: 0 <= i < |ids| ==> 0 <= ids[i] <= MaxOf(ids)
    ensures var (s', ok) := Committed(candidates, chosen, next);
            && ok && GlobalFocus(s', RightfulHolder(s')) && s'.next == next && s'.active == chosen
            && SpaceIds(s'.spaces) == SpaceIds(candidates)
  {
    hide HostsOf;
    hide DisjointHosts;
    hide TabsOk;
    hide MaxOf;
    hide IndexOfSpace;
    var s := Spaces(candidates, -1, next);
    var a := IndexOfSpace(candidates, chosen).value;
    NoneActive(candidates, ids, tag);
    assert SpaceBack(candidates[a], tag);
    var s' := WithTabs(s, a, SetFocusEnabled(candidates[a].tabs, true)).(active := chosen);
    assert Committed(candidates, chosen, next) == (s', true);
    hide ActivateSpace;
    hide Committed;
    CommittedOk(s', candidates, a, ids, tag);
    CommittedReady(s', candidates, a, ids, tag);
  }

  lemma NoneActive(candidates: seq<Space>, ids: seq<int>, tag: HostId -> (int, int))
    requires SpacesBack(candidates, ids, tag) && forall i :: 0 <= i < |ids| ==> 0 <= ids[i]
    ensures -1 !in SpaceIds(candidates)
  {
    hide SpaceBack;
  }

  lemma CommittedOk(s: Spaces, candidates: seq<Space>, a: nat, ids: seq<int>, tag: HostId -> (int, int))
    requires SpacesBack(candidates, ids, tag) && a < |candidates| && s.active == candidates[a].id
    requires s.spaces == candidates[a := candidates[a].(tabs := SetFocusEnabled(candidates[a].tabs, true))]
    requires s.next <= LIMIT && forall i :: 0 <= i < |ids| ==> 0 <= ids[i] < s.next
    ensures SpacesOk(s) && SpaceIds(s.spaces) == SpaceIds(candidates)
  {
    hide HostsOf;
    hide DisjointHosts;
    assert SpaceIds(s.spaces) == SpaceIds(candidates);
    forall i | 0 <= i < |s.spaces| ensures 0 <= s.spaces[i].id < s.next && TabsOk(s.spaces[i].tabs) {
      assert candidates[i].id in ids && SpaceBack(candidates[i], tag);
    }
    assert SpaceIds(s.spaces)[a] == s.active;
  }

  lemma CommittedReady(s: Spaces, candidates: seq<Space>, a: nat, ids: seq<int>, tag: HostId -> (int, int))
    requires SpacesBack(candidates, ids, tag) && a < |candidates| && s.active == candidates[a].id
    requires s.spaces == candidates[a := candidates[a].(tabs := SetFocusEnabled(candidates[a].tabs, true))]
    ensures FocusReady(s)
  {
    hide HostsOf;
    hide DisjointHosts;
    hide TabsOk;
    forall i | 0 <= i < |s.spaces|
      ensures s.spaces[i].tabs.focusEnabled <==> s.spaces[i].id == s.active
      ensures DisjointHosts(s.spaces[i].tabs.tabs)
    {
      assert SpaceBack(candidates[i], tag);
      assert SpaceIds(candidates)[i] == candidates[i].id;
      if i != a { assert SpaceIds(candidates)[i] != SpaceIds(candidates)[a]; }
    }
    forall i, j | 0 <= i < j < |s.spaces| ensures HostsOf(s.spaces[i].tabs.tabs) !! HostsOf(s.spaces[j].tabs.tabs) {
      SpacesHostsApart(candidates, ids, tag, i, j);
    }
  }

  lemma SpacesHostsApart(candidates: seq<Space>, ids: seq<int>, tag: HostId -> (int, int), i: nat, j: nat)
    requires SpacesBack(candidates, ids, tag) && i < j < |candidates|
    ensures HostsOf(candidates[i].tabs.tabs) !! HostsOf(candidates[j].tabs.tabs)
  {
    hide HostsOf;
    hide TabsOk;
    hide DisjointHosts;
    assert SpaceIds(candidates)[i] != SpaceIds(candidates)[j];
    assert SpaceBack(candidates[i], tag) && SpaceBack(candidates[j], tag);
  }
}
