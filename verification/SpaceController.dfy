/** The Space controller: Spaces updated in place, each with a tab controller of its own. */
module SpaceControllers {
  import opened Identifiers
  import opened SplitTrees
  import opened PaneModel
  import opened TabModel
  import opened TabControllers
  import opened SpaceModel
  import opened SessionRuns

  datatype LiveSpace = LiveSpace(id: int, name: string, root: string, tabs: TabController)

  ghost function ControllersOf(live: seq<LiveSpace>): set<TabController> {
    set i | 0 <= i < |live| :: live[i].tabs
  }

  /// Each Space has its own controller, and all report to the same focus ledger.
  ghost predicate OwnControllers(live: seq<LiveSpace>, focus: HostFocus) {
    && (forall i, j :: 0 <= i < j < |live| ==> live[i].tabs != live[j].tabs)
    && (forall i :: 0 <= i < |live| ==> live[i].tabs.focus == focus)
  }

  /// The live Spaces stand for the given values.
  ghost predicate Represents(live: seq<LiveSpace>, spaces: seq<Space>)
    reads ControllersOf(live)
  {
    && |live| == |spaces|
    && forall i :: 0 <= i < |live| ==> spaces[i] == Space(live[i].id, live[i].name, live[i].root, live[i].tabs.Value())
  }

  lemma SameControllers(a: seq<LiveSpace>, b: seq<LiveSpace>)
    requires |a| == |b| && forall i :: 0 <= i < |a| ==> b[i].tabs == a[i].tabs
    ensures ControllersOf(a) == ControllersOf(b)
  {}

  /// Entering a Space, step by step.
  lemma EnterSteps(s: Spaces, holders: set<HostId>, id: int, target: nat)
    requires IndexOfSpace(s.spaces, id) == Some(target) && target < |s.spaces|
    requires id != s.active && ActiveTab(s.spaces[target].tabs).Some?
    ensures var current := IndexOfSpace(s.spaces, s.active);
            var left := if current.None? then s
              else WithTabs(s, current.value, SetFocusEnabled(s.spaces[current.value].tabs, false));
            && current != Some(target)
            && ActivateSpace(s, id) ==
              (WithTabs(left, target, SetFocusEnabled(left.spaces[target].tabs, true)).(active := id), true)
            && EnterFocus(s, holders, id) ==
                 holders - (if current.None? then {} else Holder(s.spaces[current.value].tabs))
                 + (if s.spaces[target].tabs.focusEnabled then {} else CurrentHost(s.spaces[target].tabs))
  {
    hide CurrentHost;
  }

  /// Closing the active Space, step by step.
  lemma CloseSteps(s: Spaces, holders: set<HostId>, id: int, i: nat, j: nat)
    requires |s.spaces| > 1 && id == s.active && i < |s.spaces| && j < |s.spaces|
    requires IndexOfSpace(s.spaces, id) == Some(i) && Replacement(s.spaces, id) == Some(j)
    ensures var (s1, ok) := ActivateSpace(s, s.spaces[j].id);
            if !ok then
              CloseSpace(s, id) == (s, false) && s1 == s
              && CloseFocus(s, holders, id) == EnterFocus(s, holders, s.spaces[j].id) == holders
            else
              && CloseSpace(s, id) == (s1.(spaces := s1.spaces[..i] + s1.spaces[i + 1..]), true)
              && CloseFocus(s, holders, id) == EnterFocus(s, holders, s.spaces[j].id) - HostsOf(s1.spaces[i].tabs.tabs)
  {
    hide HostsOf;
    hide CurrentHost;
    SameHosts(s, s.spaces[j].id, i);
  }

  /// A save that fails at Space i fails as a whole.
  lemma {:induction false} SavingFails(spaces: seq<Space>, i: nat, cwd: int -> int -> LeafId -> string)
    requires i <= |spaces| && SaveSpaces(spaces[..i], cwd).None?
    ensures SaveSpaces(spaces, cwd).None?
    decreases |spaces| - i
  {
    hide SaveSpace;
    if i == |spaces| {
      assert spaces[..i] == spaces;
    } else {
      assert spaces[..i + 1][..i] == spaces[..i];
      SavingFails(spaces, i + 1, cwd);
    }
  }

  ghost function HostsBefore(spaces: seq<Space>, k: nat): set<HostId>
    requires k <= |spaces|
  {
    set i, h | 0 <= i < k && h in HostsOf(spaces[i].tabs.tabs) :: h
  }

  lemma AddedController(live: seq<LiveSpace>, space: LiveSpace)
    ensures ControllersOf(live + [space]) == ControllersOf(live) + {space.tabs}
  {
    var all := live + [space];
    forall c ensures c in ControllersOf(all) <==> c in ControllersOf(live) || c == space.tabs {
      if c in ControllersOf(live) {
        var i :| 0 <= i < |live| && live[i].tabs == c;
        assert all[i].tabs == c;
      }
      assert all[|live|].tabs == space.tabs;
    }
  }

  lemma EnabledSameHosts(s: Spaces, i: nat, enabled: bool)
    requires i < |s.spaces|
    ensures AllHosts(WithTabs(s, i, SetFocusEnabled(s.spaces[i].tabs, enabled))) == AllHosts(s)
    ensures CurrentHost(s.spaces[i].tabs) <= AllHosts(s)
  {
    var s' := WithTabs(s, i, SetFocusEnabled(s.spaces[i].tabs, enabled));
    assert forall k :: 0 <= k < |s.spaces| ==> HostsOf(s'.spaces[k].tabs.tabs) == HostsOf(s.spaces[k].tabs.tabs);
    CurrentIsOwn(s.spaces[i].tabs);
    OwnHosts(s, i);
    hide HostsOf;
    hide CurrentHost;
  }

  /// Valid identifiers, and focus off.
  ghost predicate Unfocused(spaces: seq<Space>) {
    forall i :: 0 <= i < |spaces| ==> spaces[i].id >= 0 && !spaces[i].tabs.focusEnabled
  }

  /// Candidates keep their saved identifiers and have focus off.
  lemma {:induction false} SurvivingUnfocused(deps: Deps, snaps: seq<SpaceSnapshot>, factory: Factory)
    requires forall i :: 0 <= i < |snaps| ==> snaps[i].id >= 0
    ensures Unfocused(SurvivingSpaces(deps, snaps, factory))
  {
    hide RestoreSpace;
    if snaps != [] {
      var front, last := snaps[..|snaps| - 1], snaps[|snaps| - 1];
      SurvivingUnfocused(deps, front, factory);
      RestoredUnfocused(deps, last, factory(last.id));
    }
  }

  /// With nothing active and focus off everywhere, entering a Space gives its
  /// current host the focus and takes it from nobody.
  lemma EnteredAlone(built: seq<Space>, holders: set<HostId>, chosen: int, next: int)
    requires Unfocused(built)
    ensures var (s, ok) := Committed(built, chosen, next);
            && (s, ok) == ActivateSpace(Spaces(built, -1, next), chosen)
            && (ok ==> EnterFocus(Spaces(built, -1, next), holders, chosen) == holders + RightfulHolder(s))
  {
    var s0 := Spaces(built, -1, next);
    assert -1 !in SpaceIds(built);
    if ActivateSpace(s0, chosen).1 {
      ActivatedAlike(s0, chosen);
      var s := ActivateSpace(s0, chosen).0;
      IndexByIds(built, s.spaces, chosen);
      var target := IndexOfSpace(built, chosen).value;
      SameCurrent(built[target].tabs, s.spaces[target].tabs);
      hide CurrentHost;
    }
  }

  lemma UsableIdsAreNat(snaps: seq<SpaceSnapshot>)
    requires UsableIds(SpaceSnapIds(snaps))
    ensures forall i :: 0 <= i < |snaps| ==> snaps[i].id >= 0
  {
    forall i | 0 <= i < |snaps| ensures snaps[i].id >= 0 { assert SpaceSnapIds(snaps)[i] >= 0; }
  }

  lemma ChosenLive(live: seq<LiveSpace>, built: seq<Space>, active: int)
    requires Represents(live, built) && |live| > 0
    ensures ChosenSpace(built, active) == if exists i :: 0 <= i < |live| && live[i].id == active then active
            else live[0].id
  {
    forall i | 0 <= i < |live| ensures SpaceIds(built)[i] == live[i].id {}
    if active in SpaceIds(built) {
      var i :| 0 <= i < |built| && SpaceIds(built)[i] == active;
      assert live[i].id == active;
    }
  }

  lemma NothingRepresented()
    ensures Represents([], [])
  {}

  /// Focus stays off in a Space restored with focus off, so no host of it is told.
  lemma RestoredUnfocused(deps: Deps, snap: SpaceSnapshot, factory: int -> LeafId -> HostMaker)
    ensures var (t, ok) :=
              RestoreTabs(SetFocusEnabled(NO_TABS, false), deps, snap.tabs, snap.active, snap.next, factory, false);
            && !t.focusEnabled && Holder(t) == {}
            && (RestoreSpace(deps, snap, factory).Some? ==>
                  RestoreSpace(deps, snap, factory).value.id == snap.id
                    && RestoreSpace(deps, snap, factory).value.tabs == t)
  {
    hide Survivors;
  }

  class SpaceController {
    const focus: HostFocus
    var spaces: seq<LiveSpace>
    var activeSpaceId: int
    var nextSpaceId: int
    /// The session these fields stand for.
    ghost var model: Spaces

    ghost function Controllers(): set<TabController>
      reads this
    {
      ControllersOf(spaces)
    }

    ghost predicate Valid()
      reads this, Controllers()
    {
      && OwnControllers(spaces, focus) && Represents(spaces, model.spaces)
      && model.active == activeSpaceId && model.next == nextSpaceId
    }

    constructor (focus: HostFocus, root: string)
      ensures Valid() && this.focus == focus && model == FirstSpaces(root) && fresh(Controllers())
    {
      this.focus := focus;
      var tabs := new TabController(focus);
      spaces := [LiveSpace(0, "default", root, tabs)];
      activeSpaceId, nextSpaceId := 0, 1;
      model := FirstSpaces(root);
    }

    method FindSpace(id: int) returns (r: Option<nat>)
      requires Valid()
      ensures r == IndexOfSpace(model.spaces, id)
    {
      for i := 0 to |spaces|
        invariant forall k :: 0 <= k < i ==> model.spaces[k].id != id
      {
        if spaces[i].id == id {
          assert SpaceIds(model.spaces)[i] == id;
          return Some(i);
        }
      }
      return None;
    }

    method Create(name: string, root: string) returns (id: int)
      requires Valid()
      modifies this, focus
      ensures Valid() && fresh(Controllers() - old(Controllers())) && focus.holders == old(focus.holders)
      ensures (model, id) == CreateSpace(old(model), name, root)
    {
      if name == "" || Allocate(nextSpaceId).None? {
        return -1;
      }
      id := nextSpaceId;
      nextSpaceId := nextSpaceId + 1;
      var tabs := new TabController(focus);
      tabs.EnableFocus(false);
      spaces := spaces + [LiveSpace(id, name, root, tabs)];
      model := CreateSpace(model, name, root).0;
    }

    /// Switches the focus of one Space on or off.
    method EnableAt(i: nat, enabled: bool)
      requires Valid() && i < |spaces|
      modifies `model, focus, Controllers()
      ensures Valid() && |spaces| == |model.spaces|
      ensures model == WithTabs(old(model), i, SetFocusEnabled(old(model).spaces[i].tabs, enabled))
      ensures var t := old(model).spaces[i].tabs;
              focus.holders == if enabled == t.focusEnabled then old(focus.holders)
                               else if enabled then old(focus.holders) + CurrentHost(t)
                               else old(focus.holders) - CurrentHost(t)
    {
      hide CurrentHost;
      model := WithTabs(model, i, SetFocusEnabled(model.spaces[i].tabs, enabled));
      spaces[i].tabs.EnableFocus(enabled);
    }

    /// Focus is switched off in the Space left and then on in the Space entered.
    method Activate(id: int) returns (ok: bool)
      requires Valid()
      modifies `activeSpaceId, `model, focus, Controllers()
      ensures Valid()
      ensures (model, ok) == ActivateSpace(old(model), id)
      ensures focus.holders == EnterFocus(old(model), old(focus.holders), id)
    {
      hide CurrentHost;
      hide IndexOfSpace;
      var target := FindSpace(id);
      if target.None? {
        return false;
      }
      if id == activeSpaceId {
        return true;
      }
      var targetTabs := spaces[target.value].tabs;
      var activeTab := targetTabs.FindTab(targetTabs.activeTabId);
      if activeTab.None? {
        return false;
      }
      EnterSteps(model, focus.holders, id, target.value);
      hide ActivateSpace;
      hide EnterFocus;
      hide Valid;
      HandOver(id, target.value);
      return true;
    }

    /// Takes the focus from the active Space, if there is one, and gives it to another.
    method HandOver(id: int, target: nat)
      requires Valid() && target < |model.spaces| && IndexOfSpace(model.spaces, model.active) != Some(target)
      modifies `activeSpaceId, `model, focus, Controllers()
      ensures Valid()
      ensures var s := old(model);
              var current := IndexOfSpace(s.spaces, s.active);
              var left := if current.None? then s
                else WithTabs(s, current.value, SetFocusEnabled(s.spaces[current.value].tabs, false));
              && model == WithTabs(left, target, SetFocusEnabled(left.spaces[target].tabs, true)).(active := id)
              && focus.holders ==
                   old(focus.holders) - (if current.None? then {} else Holder(s.spaces[current.value].tabs))
                   + (if s.spaces[target].tabs.focusEnabled then {} else CurrentHost(s.spaces[target].tabs))
    {
      hide CurrentHost;
      hide IndexOfSpace;
      SameCount();
      var current := FindSpace(activeSpaceId);
      hide Valid;
      if current.Some? {
        EnableAt(current.value, false);
      }
      EnableAt(target, true);
      SetActive(id);
    }

    method SetActive(id: int)
      requires Valid()
      modifies `activeSpaceId, `model
      ensures Valid() && model == old(model).(active := id)
    {
      activeSpaceId := id;
      model := model.(active := id);
    }

    method Rename(id: int, name: string)
      requires Valid()
      modifies `spaces, `model
      ensures Valid() && Controllers() == old(Controllers())
      ensures model == RenameSpace(old(model), id, name)
    {
      hide IndexOfSpace;
      var found := FindSpace(id);
      if found.Some? && name != "" {
        var i := found.value;
        model := RenameSpace(model, id, name);
        spaces := spaces[i := spaces[i].(name := name)];
        SameControllers(old(spaces), spaces);
      }
    }

    method SetRoot(id: int, root: string)
      requires Valid()
      modifies `spaces, `model
      ensures Valid() && Controllers() == old(Controllers())
      ensures model == SetSpaceRoot(old(model), id, root)
    {
      hide IndexOfSpace;
      var found := FindSpace(id);
      if found.Some? {
        var i := found.value;
        model := SetSpaceRoot(model, id, root);
        spaces := spaces[i := spaces[i].(root := root)];
        SameControllers(old(spaces), spaces);
      }
    }

    method HasActiveTab(i: nat) returns (has: bool)
      requires Valid() && i < |model.spaces|
      ensures has == ActiveTab(model.spaces[i].tabs).Some?
    {
      var tabs := spaces[i].tabs;
      var active := tabs.FindTab(tabs.activeTabId);
      return active.Some?;
    }

    /// The first other Space with an active tab.
    method FindReplacement(id: int) returns (r: Option<nat>)
      requires Valid()
      ensures r == Replacement(model.spaces, id)
    {
      hide Replacement;
      hide ActiveTab;
      SameCount();
      for i := 0 to |spaces|
        invariant forall k :: 0 <= k < i && model.spaces[k].id != id ==> ActiveTab(model.spaces[k].tabs).None?
      {
        var has := HasActiveTab(i);
        if spaces[i].id != id && has {
          return Some(i);
        }
      }
      return None;
    }

    /// Closes a Space other than the last; an active one hands the focus over
    /// first, and is kept if no other Space can take it.
    method Close(id: int) returns (ok: bool)
      requires Valid()
      modifies this, focus, Controllers()
      ensures Valid() && Controllers() <= old(Controllers())
      ensures (model, ok) == CloseSpace(old(model), id)
      ensures focus.holders == CloseFocus(old(model), old(focus.holders), id)
    {
      hide CurrentHost;
      hide IndexOfSpace;
      hide HostsOf;
      hide Replacement;
      hide Valid;
      if |spaces| <= 1 {
        SameCount();
        return false;
      }
      var closing := FindSpace(id);
      SameCount();
      if closing.None? {
        return false;
      }
      if id != activeSpaceId {
        DropAt(closing.value);
        return true;
      }
      var replacement := FindReplacement(id);
      if replacement.None? {
        return false;
      }
      CloseSteps(model, focus.holders, id, closing.value, replacement.value);
      hide CloseSpace;
      hide CloseFocus;
      var entered := EnterAt(replacement.value);
      if !entered {
        return false;
      }
      DropAt(closing.value);
      return true;
    }

    lemma SameCount()
      requires Valid()
      ensures |spaces| == |model.spaces| && activeSpaceId == model.active
    {}

    method EnterAt(i: nat) returns (ok: bool)
      requires Valid() && i < |model.spaces|
      modifies `activeSpaceId, `model, focus, Controllers()
      ensures Valid() && |spaces| == |model.spaces|
      ensures (model, ok) == ActivateSpace(old(model), old(model).spaces[i].id)
      ensures focus.holders == EnterFocus(old(model), old(focus.holders), old(model).spaces[i].id)
    {
      hide ActivateSpace;
      hide EnterFocus;
      ok := Activate(spaces[i].id);
    }

    /// Shuts one Space down and takes it out.
    method DropAt(i: nat)
      requires Valid() && i < |spaces|
      modifies `spaces, `model, focus, Controllers()
      ensures Valid() && Controllers() <= old(Controllers())
      ensures model == old(model).(spaces := old(model).spaces[..i] + old(model).spaces[i + 1..])
      ensures focus.holders == old(focus.holders) - HostsOf(old(model).spaces[i].tabs.tabs)
    {
      hide HostsOf;
      spaces[i].tabs.ShutdownTabs();
      ghost var live := spaces;
      spaces := spaces[..i] + spaces[i + 1..];
      model := model.(spaces := model.spaces[..i] + model.spaces[i + 1..]);
      assert forall k :: 0 <= k < |spaces| ==> spaces[k] == live[if k < i then k else k + 1];
      assert forall k :: 0 <= k < |spaces| ==> model.spaces[k] == old(model).spaces[if k < i then k else k + 1];
    }

    /// Every saved Space, or nothing if one tab cannot be saved.
    method SnapshotSpaces(cwd: int -> int -> LeafId -> string) returns (saved: Option<seq<SpaceSnapshot>>)
      requires Valid()
      ensures saved == SaveSpaces(model.spaces, cwd)
    {
      hide SaveTabs;
      var snaps: seq<SpaceSnapshot> := [];
      for i := 0 to |spaces|
        invariant SaveSpaces(model.spaces[..i], cwd) == Some(snaps)
      {
        assert model.spaces[..i + 1][..i] == model.spaces[..i];
        var space := spaces[i];
        var tabs := space.tabs.SaveAll(cwd(space.id));
        if tabs.None? {
          SavingFails(model.spaces, i + 1, cwd);
          return None;
        }
        snaps := snaps +
          [SpaceSnapshot(space.id, space.name, space.root, space.tabs.activeTabId, space.tabs.nextTabId, tabs.value)];
      }
      assert model.spaces[..|spaces|] == model.spaces;
      return Some(snaps);
    }

    /// Builds a candidate for each saved Space with focus off; a Space of which no
    /// tab comes back is skipped. Nothing live is touched.
    method BuildCandidates(deps: Deps, snaps: seq<SpaceSnapshot>, factory: Factory)
      returns (candidates: seq<LiveSpace>, ghost built: seq<Space>)
      modifies focus
      ensures focus.holders == old(focus.holders)
      ensures OwnControllers(candidates, focus) && fresh(ControllersOf(candidates))
      ensures built == SurvivingSpaces(deps, snaps, factory) && Represents(candidates, built)
    {
      hide RestoreTabs;
      hide HostsOf;
      candidates, built := [], [];
      for i := 0 to |snaps|
        invariant focus.holders == old(focus.holders)
        invariant OwnControllers(candidates, focus) && fresh(ControllersOf(candidates))
        invariant built == SurvivingSpaces(deps, snaps[..i], factory) && Represents(candidates, built)
      {
        assert snaps[..i + 1][..i] == snaps[..i];
        var tabs, ok := RestoreOne(deps, snaps[i], factory(snaps[i].id));
        if ok {
          var name := if snaps[i].name == "" then "default" else snaps[i].name;
          AddedController(candidates, LiveSpace(snaps[i].id, name, snaps[i].root, tabs));
          candidates := candidates + [LiveSpace(snaps[i].id, name, snaps[i].root, tabs)];
          built := built + [Space(snaps[i].id, name, snaps[i].root, tabs.Value())];
        }
      }
      assert snaps[..|snaps|] == snaps;
    }

    /// A new tab controller, focus off, with the saved tabs of one Space.
    method RestoreOne(deps: Deps, snap: SpaceSnapshot, factory: int -> LeafId -> HostMaker)
      returns (tabs: TabController, ok: bool)
      modifies focus
      ensures focus.holders == old(focus.holders) && fresh(tabs) && tabs.focus == focus
      ensures ok == RestoreSpace(deps, snap, factory).Some?
      ensures ok ==> RestoreSpace(deps, snap, factory).value ==
                       Space(snap.id, if snap.name == "" then "default" else snap.name, snap.root, tabs.Value())
    {
      tabs := new TabController(focus);
      tabs.EnableFocus(false);
      assert HostsOf(tabs.tabs) == {};
      assert focus.holders == old(focus.holders);
      hide HostsOf;
      ok := tabs.RestoreSaved(deps, snap.tabs, snap.active, snap.next, factory, false);
      RestoredUnfocused(deps, snap, factory);
      hide RestoreTabs;
      if !ok {
        tabs.ShutdownTabs();
      }
    }

    /// Shuts every Space down.
    method ShutdownSpaces()
      requires Valid()
      modifies `model, focus, Controllers()
      ensures Valid() && focus.holders == old(focus.holders) - AllHosts(old(model))
    {
      hide HostsOf;
      for i := 0 to |spaces|
        invariant Valid()
        invariant model.active == old(model).active && model.next == old(model).next
        invariant forall k :: i <= k < |spaces| ==> model.spaces[k] == old(model).spaces[k]
        invariant focus.holders == old(focus.holders) - HostsBefore(old(model).spaces, i)
      {
        model := WithTabs(model, i, CloseAll(model.spaces[i].tabs));
        spaces[i].tabs.ShutdownTabs();
      }
    }

    /// Replaces the session by a saved one. Every check comes before the first
    /// change; then the focus is taken away, the old Spaces are shut down and
    /// one of the new ones is entered.
    method RestoreSaved(deps: Deps, snaps: seq<SpaceSnapshot>, active: int, next: int, factory: Factory)
      returns (ok: bool)
      requires Valid()
      modifies this, focus, Controllers()
      ensures Valid()
      ensures match RestoreSpaces(old(model), deps, snaps, active, next, factory)
              case Refused => !ok && model == old(model) && focus.holders == old(focus.holders)
              case Restored(session) =>
                ok && model == session
                  && focus.holders == old(focus.holders) - AllHosts(old(model)) + RightfulHolder(session)
              case FailedAfterCommit => !ok && model.spaces == []
    {
      hide SurvivingSpaces;
      hide Committed;
      hide RestoreSpaces;
      hide RightfulHolder;
      hide AllHosts;
      hide UsableIds;
      hide MaxOf;
      RestoreSteps(model, deps, snaps, active, next, factory);
      var usable, candidates, built, top := CheckAndBuild(deps, snaps, factory);
      if !usable {
        return false;
      }
      var wanted := exists i :: 0 <= i < |candidates| && candidates[i].id == active;
      ChosenLive(candidates, built, active);
      ok := Commit(candidates, built, if wanted then active else candidates[0].id, Clamp(next, top + 1, LIMIT));
    }

    /// Checks the identifiers and builds the candidates; refused unless one comes back.
    method CheckAndBuild(deps: Deps, snaps: seq<SpaceSnapshot>, factory: Factory)
      returns (usable: bool, candidates: seq<LiveSpace>, ghost built: seq<Space>, top: int)
      modifies focus
      ensures focus.holders == old(focus.holders)
      ensures OwnControllers(candidates, focus) && fresh(ControllersOf(candidates)) && Represents(candidates, built)
      ensures usable <==> |snaps| > 0 && UsableIds(SpaceSnapIds(snaps)) && |SurvivingSpaces(deps, snaps, factory)| > 0
      ensures usable ==>
                top == MaxOf(SpaceSnapIds(snaps)) && built == SurvivingSpaces(deps, snaps, factory) && Unfocused(built)
    {
      hide SurvivingSpaces;
      hide MaxOf;
      hide UsableIds;
      hide Unfocused;
      usable, candidates, built, top := false, [], [], -1;
      if |snaps| == 0 {
        return;
      }
      var valid, largest := TabController.CheckIds(SpaceSnapIds(snaps));
      if !valid {
        return;
      }
      top := largest;
      candidates, built := BuildCandidates(deps, snaps, factory);
      UsableIdsAreNat(snaps);
      SurvivingUnfocused(deps, snaps, factory);
      usable := |candidates| > 0;
    }

    /// Takes the focus away, shuts everything live down and swaps the candidates in.
    method SwapIn(candidates: seq<LiveSpace>, ghost built: seq<Space>, next: int)
      requires Valid() && OwnControllers(candidates, focus) && Represents(candidates, built)
      requires ControllersOf(candidates) !! Controllers()
      modifies this, focus, Controllers()
      ensures Valid() && Controllers() == ControllersOf(candidates)
      ensures model == Spaces(built, -1, next)
      ensures focus.holders == old(focus.holders) - AllHosts(old(model))
    {
      hide AllHosts;
      hide CurrentHost;
      hide IndexOfSpace;
      var current := FindSpace(activeSpaceId);
      SameCount();
      hide Valid;
      if current.Some? {
        EnabledSameHosts(model, current.value, false);
        EnableAt(current.value, false);
      }
      ShutdownSpaces();
      Replace(candidates, built, next);
    }

    method Replace(candidates: seq<LiveSpace>, ghost built: seq<Space>, next: int)
      requires OwnControllers(candidates, focus) && Represents(candidates, built)
      modifies this
      ensures Valid() && Controllers() == ControllersOf(candidates)
      ensures model == Spaces(built, -1, next)
    {
      spaces, activeSpaceId, nextSpaceId := candidates, -1, next;
      model := Spaces(built, -1, next);
    }

    method Commit(candidates: seq<LiveSpace>, ghost built: seq<Space>, chosen: int, next: int) returns (ok: bool)
      requires Valid() && OwnControllers(candidates, focus) && Represents(candidates, built)
      requires ControllersOf(candidates) !! Controllers()
      requires Unfocused(built)
      modifies this, focus, Controllers(), ControllersOf(candidates)
      ensures Valid()
      ensures ok == Committed(built, chosen, next).1
      ensures ok ==> model == Committed(built, chosen, next).0 &&
                     focus.holders == old(focus.holders) - AllHosts(old(model)) + RightfulHolder(model)
      ensures !ok ==> model.spaces == []
    {
      hide AllHosts;
      hide CurrentHost;
      hide Valid;
      hide Represents;
      hide ControllersOf;
      SwapIn(candidates, built, next);
      EnteredAlone(built, focus.holders, chosen, next);
      hide Committed;
      hide EnterFocus;
      hide RightfulHolder;
      assert Committed(built, chosen, next) == ActivateSpace(model, chosen);
      ok := Activate(chosen);
      if !ok {
        ShutdownSpaces();
        NothingRepresented();
        Replace([], [], next);
      }
    }
  }
}
