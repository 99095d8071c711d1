/** Names of Spaces and tabs, identifiers of tabs, and where the user is put by a restore. */
module SessionNames {
  import opened Identifiers
  import opened SplitTrees
  import opened PaneModel
  import opened PaneFocus
  import opened TabModel
  import opened TabControllers
  import opened TabLaws
  import opened SpaceModel
  import opened SessionRestore
  import opened TabProjection
  import opened SessionRuns

  // ---------------------------------------------------------------------------
  // Every Space has a name

  ghost predicate AllNamed(spaces: seq<Space>) {
    forall i :: 0 <= i < |spaces| ==> spaces[i].name != ""
  }

  /// The Spaces have names from those of s.
  ghost predicate NamesFrom(s: Spaces, s': Spaces) {
    forall i :: 0 <= i < |s'.spaces| ==> exists j :: 0 <= j < |s.spaces| && s'.spaces[i].name == s.spaces[j].name
  }

  lemma NamedFrom(s: Spaces, s': Spaces)
    requires AllNamed(s.spaces) && NamesFrom(s, s')
    ensures AllNamed(s'.spaces)
  {}

  lemma EnterNames(s: Spaces, id: int)
    ensures var s' := ActivateSpace(s, id).0;
            |s'.spaces| == |s.spaces| && forall i :: 0 <= i < |s.spaces| ==> s'.spaces[i].name == s.spaces[i].name
  {
    hide ActiveTab;
    hide IndexOfSpace;
  }

  lemma CloseNames(s: Spaces, id: int)
    ensures NamesFrom(s, CloseSpace(s, id).0)
  {
    hide ActiveTab;
    hide ActivateSpace;
    hide IndexOfSpace;
    if CloseSpace(s, id).1 {
      var i := IndexOfSpace(s.spaces, id).value;
      if id == s.active { EnterNames(s, s.spaces[Replacement(s.spaces, id).value].id); }
      var s' := CloseSpace(s, id).0;
      hide Replacement;
      forall k | 0 <= k < |s'.spaces|
        ensures exists j :: 0 <= j < |s.spaces| && s'.spaces[k].name == s.spaces[j].name
      {
        var j := if k < i then k else k + 1;
        assert s'.spaces[k].name == s.spaces[j].name;
      }
    }
  }

  /// A Space that comes back has its saved name and directory; one saved without a name
  /// gets one.
  lemma RestoredName(deps: Deps, snap: SpaceSnapshot, factory: int -> LeafId -> HostMaker)
    requires RestoreSpace(deps, snap, factory).Some?
    ensures var space := RestoreSpace(deps, snap, factory).value;
            && space.id == snap.id && space.root == snap.root && space.name != ""
            && (snap.name != "" ==> space.name == snap.name)
  {
    hide RestoreTabs;
  }

  lemma {:induction false} SurvivorsNamed(deps: Deps, snaps: seq<SpaceSnapshot>, factory: Factory)
    ensures AllNamed(SurvivingSpaces(deps, snaps, factory))
  {
    hide RestoreSpace;
    if snaps != [] {
      SurvivorsNamed(deps, snaps[..|snaps| - 1], factory);
      var last := snaps[|snaps| - 1];
      if RestoreSpace(deps, last, factory(last.id)).Some? { RestoredName(deps, last, factory(last.id)); }
    }
  }

  lemma RestoreNames(s: Spaces, deps: Deps, snaps: seq<SpaceSnapshot>, active: int, next: int, factory: Factory)
    ensures var r := RestoreSpaces(s, deps, snaps, active, next, factory);
            r.Restored? ==> AllNamed(r.session.spaces)
  {
    hide SurvivingSpaces;
    hide ActivateSpace;
    SurvivorsNamed(deps, snaps, factory);
    var candidates := SurvivingSpaces(deps, snaps, factory);
    if |candidates| > 0 {
      var top := MaxOf(SpaceSnapIds(snaps)) + 1;
      EnterNames(Spaces(candidates, -1, if top <= LIMIT then Clamp(next, top, LIMIT) else LIMIT),
                 ChosenSpace(candidates, active));
    }
  }

  lemma StepKeepsNames(l: Live, op: SessionOp)
    requires Possible(l.session, op) && AllNamed(l.session.spaces)
    ensures AllNamed(After(l, op).session.spaces)
  {
    hide Applicable;
    hide TabResult;
    hide TabFocus;
    hide PaneResult;
    hide PaneCalls;
    hide AllHosts;
    hide Arrives;
    hide MakersApart;
    hide CheckedTabs;
    hide EnterFocus;
    hide CloseFocus;
    hide CloseSpace;
    hide ActivateSpace;
    hide RestoreSpaces;
    match op
    case InSpace(i, op) =>
    case InPanes(deps, op) =>
    case Project(i, tab, deps, remote, a) =>
    case Create(name, root) =>
    case Enter(id) => EnterNames(l.session, id);
    case Rename(id, name) =>
    case SetRoot(id, root) =>
    case Close(id) =>
      CloseNames(l.session, id);
      NamedFrom(l.session, CloseSpace(l.session, id).0);
    case Restore(deps, snaps, active, next, factory) => RestoreNames(l.session, deps, snaps, active, next, factory);
  }

  /// In every state of every run each Space has a name.
  lemma {:induction false} RunKeepsNames(root: string, states: seq<Live>, ops: seq<SessionOp>, k: nat)
    requires Run(root, states, ops) && k < |states|
    ensures AllNamed(states[k].session.spaces)
  {
    hide After;
    hide Possible;
    if k > 0 {
      RunKeepsNames(root, states, ops, k - 1);
      StepKeepsNames(states[k - 1], ops[k - 1]);
    }
  }

  // ---------------------------------------------------------------------------
  // Where a restore puts the user

  /// A tab that comes back has its saved name, or one if it was saved without.
  lemma RestoredTabName(deps: Deps, snap: TabSnapshot, factory: LeafId -> HostMaker)
    requires RestoreTab(deps, snap, factory).Some?
    ensures var tab := RestoreTab(deps, snap, factory).value;
            && tab.id == snap.id && tab.nameUserSet == snap.nameUserSet && tab.initialized && tab.name != ""
            && (snap.name != "" ==> tab.name == snap.name)
  {
    hide RestoreLayout;
  }

  /// The saved active tab is active again if it came back, and otherwise the first tab.
  lemma RestoredTabIsActive(t: Tabs, deps: Deps, snaps: seq<TabSnapshot>, active: int, next: int,
                            factory: int -> LeafId -> HostMaker, strict: bool)
    requires RestoreTabs(t, deps, snaps, active, next, factory, strict).1
    ensures var t' := RestoreTabs(t, deps, snaps, active, next, factory, strict).0;
            && |t'.tabs| > 0 && t'.active in Ids(t'.tabs)
            && (active in Ids(t'.tabs) ==> t'.active == active)
            && (active !in Ids(t'.tabs) ==> t'.active == t'.tabs[0].id)
  {
    hide Survivors;
    var t' := RestoreTabs(t, deps, snaps, active, next, factory, strict).0;
    assert Ids(t'.tabs)[0] == t'.tabs[0].id;
  }

  /// And so for Spaces.
  lemma RestoredSpaceIsActive(s: Spaces, deps: Deps, snaps: seq<SpaceSnapshot>, active: int, next: int,
                              factory: Factory)
    requires RestoreSpaces(s, deps, snaps, active, next, factory).Restored?
    ensures var s' := RestoreSpaces(s, deps, snaps, active, next, factory).session;
            && |s'.spaces| > 0
            && (active in SpaceIds(s'.spaces) ==> s'.active == active)
            && (active !in SpaceIds(s'.spaces) ==> s'.active == s'.spaces[0].id)
  {
    hide SurvivingSpaces;
    hide ActivateSpace;
    var candidates := SurvivingSpaces(deps, snaps, factory);
    var top := MaxOf(SpaceSnapIds(snaps)) + 1;
    var s0 := Spaces(candidates, -1, if top <= LIMIT then Clamp(next, top, LIMIT) else LIMIT);
    ActivatedAlike(s0, ChosenSpace(candidates, active));
    var s' := RestoreSpaces(s, deps, snaps, active, next, factory).session;
    assert SpaceIds(s'.spaces)[0] == SpaceIds(candidates)[0];
  }

  // ---------------------------------------------------------------------------
  // Identifiers of tabs

  /// Each attempt to add a tab uses up an identifier, whether or not its panes could be
  /// made: the next tab never gets one that was given out or lost before.
  lemma AddUsesUp(t: Tabs, created: Option<Panes>, name: string)
    requires ValidIdentifier(t.next)
    ensures var (t', id) := AddTab(t, created, name);
            && t'.next == t.next + 1 && (id >= 0 <==> created.Some?) && (id >= 0 ==> id == t.next)
            && (created.None? ==> t' == t.(next := t.next + 1))
            && (created.Some? ==>
                  && |t'.tabs| == |t.tabs| + 1 && t'.tabs[..|t.tabs|] == t.tabs && t'.active == id
                  && t'.tabs[|t.tabs|].id == id && t'.tabs[|t.tabs|].name == name
                  && t'.tabs[|t.tabs|].panes == created.value && t'.tabs[|t.tabs|].initialized)
  {
    if created.Some? {
      var tabs := t.tabs + [Tab(t.next, name, false, created.value, true)];
      assert Ids(tabs)[|t.tabs|] == t.next;
    }
  }
}
