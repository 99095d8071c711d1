/** The Spaces of a session, what the Space controller does to them, and the
    global focus invariant. */
module SpaceModel {
  import opened Identifiers
  import opened SplitTrees
  import opened PaneModel
  import opened TabModel
  import opened TabControllers

  datatype Space = Space(id: int, name: string, root: string, tabs: Tabs)

  datatype Spaces = Spaces(spaces: seq<Space>, active: int, next: int)

  function SpaceIds(spaces: seq<Space>): (s: seq<int>)
    ensures |s| == |spaces| && forall i :: 0 <= i < |spaces| ==> s[i] == spaces[i].id
  {
    seq(|spaces|, i requires 0 <= i < |spaces| => spaces[i].id)
  }

  function IndexOfSpace(spaces: seq<Space>, id: int): (r: Option<nat>)
    ensures r.Some? <==> id in SpaceIds(spaces)
    ensures r.Some? ==> r.value < |spaces| && spaces[r.value].id == id
    ensures r.Some? ==> forall k :: 0 <= k < r.value ==> spaces[k].id != id
  {
    if spaces == [] then None
    else if spaces[0].id == id then
      assert SpaceIds(spaces)[0] == id;
      Some(0)
    else
      assert SpaceIds(spaces) == [spaces[0].id] + SpaceIds(spaces[1..]);
      match IndexOfSpace(spaces[1..], id)
      case None => None
      case Some(i) => Some(i + 1)
  }

  // ---------------------------------------------------------------------------
  // Operations

  function WithTabs(s: Spaces, i: nat, tabs: Tabs): Spaces
    requires i < |s.spaces|
  {
    s.(spaces := s.spaces[i := s.spaces[i].(tabs := tabs)])
  }

  /// The one empty Space a session begins with.
  function FirstSpaces(root: string): Spaces {
    Spaces([Space(0, "default", root, NO_TABS)], 0, 1)
  }

  function CreateSpace(s: Spaces, name: string, root: string): (Spaces, int) {
    if name == "" || Allocate(s.next).None? then (s, -1)
    else (s.(spaces := s.spaces + [Space(s.next, name, root, SetFocusEnabled(NO_TABS, false))], next := s.next + 1),
          s.next)
  }

  /// Focus is switched off in the Space left and on in the Space entered.
  function ActivateSpace(s: Spaces, id: int): (r: (Spaces, bool))
    ensures |r.0.spaces| == |s.spaces|
  {
    match IndexOfSpace(s.spaces, id)
    case None => (s, false)
    case Some(target) =>
      if id == s.active then (s, true)
      else if ActiveTab(s.spaces[target].tabs).None? then (s, false)
      else
        var left := match IndexOfSpace(s.spaces, s.active)
                    case None => s
                    case Some(i) => WithTabs(s, i, SetFocusEnabled(s.spaces[i].tabs, false));
        (WithTabs(left, target, SetFocusEnabled(left.spaces[target].tabs, true)).(active := id), true)
  }

  function RenameSpace(s: Spaces, id: int, name: string): Spaces {
    match IndexOfSpace(s.spaces, id)
    case None => s
    case Some(i) => if name == "" then s else s.(spaces := s.spaces[i := s.spaces[i].(name := name)])
  }

  function SetSpaceRoot(s: Spaces, id: int, root: string): Spaces {
    match IndexOfSpace(s.spaces, id)
    case None => s
    case Some(i) => s.(spaces := s.spaces[i := s.spaces[i].(root := root)])
  }

  /// The first other Space with an active tab.
  function Replacement(spaces: seq<Space>, id: int): (r: Option<nat>)
    ensures r.Some? ==> r.value < |spaces| && spaces[r.value].id != id && ActiveTab(spaces[r.value].tabs).Some?
    ensures r.None? ==> forall i :: 0 <= i < |spaces| && spaces[i].id != id ==> ActiveTab(spaces[i].tabs).None?
    ensures r.Some? ==> forall i :: 0 <= i < r.value && spaces[i].id != id ==> ActiveTab(spaces[i].tabs).None?
  {
    if spaces == [] then None
    else if spaces[0].id != id && ActiveTab(spaces[0].tabs).Some? then Some(0)
    else
      match Replacement(spaces[1..], id)
      case None => None
      case Some(i) => Some(i + 1)
  }

  function CloseSpace(s: Spaces, id: int): (Spaces, bool) {
    if |s.spaces| <= 1 then (s, false)
    else
      match IndexOfSpace(s.spaces, id)
      case None => (s, false)
      case Some(i) =>
        if id != s.active then (s.(spaces := s.spaces[..i] + s.spaces[i + 1..]), true)
        else
          match Replacement(s.spaces, id)
          case None => (s, false)
          case Some(j) =>
            var (s1, ok) := ActivateSpace(s, s.spaces[j].id);
            if !ok then (s, false)
            else (s1.(spaces := s1.spaces[..i] + s1.spaces[i + 1..]), true)
  }

  // ---------------------------------------------------------------------------
  // Saving and restoring

  datatype SpaceSnapshot = SpaceSnapshot(id: int, name: string, root: string, active: int, next: int,
                                         tabs: seq<TabSnapshot>)

  function SaveSpace(space: Space, cwd: int -> LeafId -> string): Option<SpaceSnapshot> {
    match SaveTabs(space.tabs.tabs, cwd)
    case None => None
    case Some(tabs) => Some(SpaceSnapshot(space.id, space.name, space.root, space.tabs.active, space.tabs.next, tabs))
  }

  function SaveSpaces(spaces: seq<Space>, cwd: int -> int -> LeafId -> string): Option<seq<SpaceSnapshot>> {
    if spaces == [] then Some([])
    else
      var last := spaces[|spaces| - 1];
      match (SaveSpaces(spaces[..|spaces| - 1], cwd), SaveSpace(last, cwd(last.id)))
      case (Some(front), Some(space)) => Some(front + [space])
      case _ => None
  }

  type Factory = int -> int -> LeafId -> HostMaker

  /// One Space restored with focus off; None when no tab of it comes back.
  function RestoreSpace(deps: Deps, snap: SpaceSnapshot, factory: int -> LeafId -> HostMaker): Option<Space> {
    var (tabs, ok) :=
      RestoreTabs(SetFocusEnabled(NO_TABS, false), deps, snap.tabs, snap.active, snap.next, factory, false);
    if ok then Some(Space(snap.id, if snap.name == "" then "default" else snap.name, snap.root, tabs)) else None
  }

  function SurvivingSpaces(deps: Deps, snaps: seq<SpaceSnapshot>, factory: Factory): seq<Space> {
    if snaps == [] then []
    else
      var last := snaps[|snaps| - 1];
      var front := SurvivingSpaces(deps, snaps[..|snaps| - 1], factory);
      match RestoreSpace(deps, last, factory(last.id))
      case None => front
      case Some(space) => front + [space]
  }

  function SpaceSnapIds(snaps: seq<SpaceSnapshot>): (s: seq<int>)
    ensures |s| == |snaps| && forall i :: 0 <= i < |snaps| ==> s[i] == snaps[i].id
  {
    seq(|snaps|, i requires 0 <= i < |snaps| => snaps[i].id)
  }

  function ChosenSpace(spaces: seq<Space>, wanted: int): int
    requires |spaces| > 0
  {
    if wanted in SpaceIds(spaces) then wanted else spaces[0].id
  }

  /// The session after the candidates are swapped in and one of them is entered;
  /// the flag is false when that last step is refused.
  function Committed(candidates: seq<Space>, chosen: int, next: int): (Spaces, bool) {
    ActivateSpace(Spaces(candidates, -1, next), chosen)
  }

  /// A restore: refused with the session untouched, or committed.
  datatype RestoreOutcome = Refused | Restored(session: Spaces) | FailedAfterCommit

  function RestoreSpaces(s: Spaces, deps: Deps, snaps: seq<SpaceSnapshot>, active: int, next: int,
                         factory: Factory): RestoreOutcome {
    var candidates := SurvivingSpaces(deps, snaps, factory);
    if |snaps| == 0 || !UsableIds(SpaceSnapIds(snaps)) || |candidates| == 0 then Refused
    else
      var top := MaxOf(SpaceSnapIds(snaps)) + 1;
      var (session, ok) :=
        Committed(candidates, ChosenSpace(candidates, active), if top <= LIMIT then Clamp(next, top, LIMIT) else LIMIT);
      if ok then Restored(session) else FailedAfterCommit
  }

  /// Restoring a session, step by step.
  lemma RestoreSteps(s: Spaces, deps: Deps, snaps: seq<SpaceSnapshot>, active: int, next: int, factory: Factory)
    ensures var candidates := SurvivingSpaces(deps, snaps, factory);
            var r := RestoreSpaces(s, deps, snaps, active, next, factory);
            if |snaps| == 0 || !UsableIds(SpaceSnapIds(snaps)) || |candidates| == 0 then r == Refused
            else
              && MaxOf(SpaceSnapIds(snaps)) + 1 <= LIMIT
              && var c := Committed(candidates, ChosenSpace(candidates, active),
                                    Clamp(next, MaxOf(SpaceSnapIds(snaps)) + 1, LIMIT));
                 r == if c.1 then Restored(c.0) else FailedAfterCommit
  {
    hide SurvivingSpaces;
    hide Committed;
  }

  // ---------------------------------------------------------------------------
  // What is kept

  ghost predicate SpacesOk(s: Spaces) {
    && Distinct(SpaceIds(s.spaces)) && s.next <= LIMIT
    && (forall i :: 0 <= i < |s.spaces| ==> 0 <= s.spaces[i].id < s.next && TabsOk(s.spaces[i].tabs))
    && s.active in SpaceIds(s.spaces)
  }

  /// Only the active Space may hand focus to its hosts, and no host is in two places.
  ghost predicate FocusReady(s: Spaces) {
    && (forall i :: 0 <= i < |s.spaces| ==> (s.spaces[i].tabs.focusEnabled <==> s.spaces[i].id == s.active))
    && (forall i :: 0 <= i < |s.spaces| ==> DisjointHosts(s.spaces[i].tabs.tabs))
    && (forall i, j :: 0 <= i < j < |s.spaces| ==> HostsOf(s.spaces[i].tabs.tabs) !! HostsOf(s.spaces[j].tabs.tabs))
  }

  /// The focused host of the active tab of the active Space, if there is one.
  ghost function RightfulHolder(s: Spaces): set<HostId> {
    match IndexOfSpace(s.spaces, s.active)
    case None => {}
    case Some(i) => CurrentHost(s.spaces[i].tabs)
  }

  ghost predicate GlobalFocus(s: Spaces, holders: set<HostId>) {
    SpacesOk(s) && FocusReady(s) && holders == RightfulHolder(s)
  }

  /// Under global focus each Space agrees with the flags of its own hosts.
  lemma GlobalIsLocal(s: Spaces, holders: set<HostId>, i: nat)
    requires GlobalFocus(s, holders) && i < |s.spaces|
    ensures FocusAgrees(s.spaces[i].tabs, holders)
  {
    var a := IndexOfSpace(s.spaces, s.active).value;
    CurrentIsOwn(s.spaces[a].tabs);
    CurrentIsOwn(s.spaces[i].tabs);
    assert SpaceIds(s.spaces)[i] == s.spaces[i].id;
    if i != a {
      assert SpaceIds(s.spaces)[i] != SpaceIds(s.spaces)[a];
      assert HostsOf(s.spaces[a].tabs.tabs) !! HostsOf(s.spaces[i].tabs.tabs);
    }
  }

  /// Any tab operation in any Space that hands focus over within that Space keeps
  /// the global invariant, as long as hosts it brings in are nowhere else.
  lemma TabOperationKeepsGlobalFocus(s: Spaces, holders: set<HostId>, i: nat, t: Tabs, holders': set<HostId>)
    requires GlobalFocus(s, holders) && i < |s.spaces|
    requires HandedOver(s.spaces[i].tabs, holders, t, holders')
    requires TabsOk(t) && DisjointHosts(t.tabs) && t.focusEnabled == s.spaces[i].tabs.focusEnabled
    requires forall j :: 0 <= j < |s.spaces| && j != i ==> HostsOf(t.tabs) !! HostsOf(s.spaces[j].tabs.tabs)
    ensures GlobalFocus(WithTabs(s, i, t), holders')
  {
    hide HostsOf;
    hide CurrentHost;
    hide DisjointHosts;
    hide TabsOk;
    var s' := WithTabs(s, i, t);
    assert SpaceIds(s'.spaces) == SpaceIds(s.spaces);
    var a := IndexOfSpace(s.spaces, s.active).value;
    IndexByIds(s.spaces, s'.spaces, s.active);
    CurrentIsOwn(s.spaces[a].tabs);
    SpacesApart(s, a, i);
    SwappedReady(s, i, t);
    hide FocusReady;
    hide SpacesOk;
    SwappedOk(s, i, t);
  }

  lemma IndexByIds(a: seq<Space>, b: seq<Space>, id: int)
    requires SpaceIds(a) == SpaceIds(b)
    ensures IndexOfSpace(a, id) == IndexOfSpace(b, id)
  {
    hide IndexOfSpace;
    if id in SpaceIds(a) {
      var i, j := IndexOfSpace(a, id).value, IndexOfSpace(b, id).value;
      assert SpaceIds(a)[j] == b[j].id == a[j].id;
      assert SpaceIds(b)[i] == a[i].id == b[i].id;
    }
  }

  lemma SpacesApart(s: Spaces, a: nat, i: nat)
    requires SpacesOk(s) && FocusReady(s) && a < |s.spaces| && i < |s.spaces| && s.spaces[a].id == s.active
    ensures i != a ==>
              HostsOf(s.spaces[a].tabs.tabs) !! HostsOf(s.spaces[i].tabs.tabs) && !s.spaces[i].tabs.focusEnabled
    ensures s.spaces[a].tabs.focusEnabled
  {
    hide HostsOf;
    hide DisjointHosts;
    if i != a {
      assert SpaceIds(s.spaces)[i] != SpaceIds(s.spaces)[a];
    }
  }

  lemma SwappedReady(s: Spaces, i: nat, t: Tabs)
    requires FocusReady(s) && i < |s.spaces|
    requires DisjointHosts(t.tabs) && t.focusEnabled == s.spaces[i].tabs.focusEnabled
    requires forall j :: 0 <= j < |s.spaces| && j != i ==> HostsOf(t.tabs) !! HostsOf(s.spaces[j].tabs.tabs)
    ensures FocusReady(WithTabs(s, i, t))
  {
    hide HostsOf;
    hide DisjointHosts;
  }

  lemma SwappedOk(s: Spaces, i: nat, t: Tabs)
    requires SpacesOk(s) && i < |s.spaces| && TabsOk(t)
    ensures SpacesOk(WithTabs(s, i, t))
  {
    hide TabsOk;
    assert SpaceIds(WithTabs(s, i, t).spaces) == SpaceIds(s.spaces);
  }

  // ---------------------------------------------------------------------------
  // Space operations under the global invariant

  /// The position of the active Space is the only one with focus enabled.
  lemma ActivateKeepsGlobalFocus(s: Spaces, holders: set<HostId>, id: int)
    requires GlobalFocus(s, holders) && ActivateSpace(s, id).1
    ensures GlobalFocus(ActivateSpace(s, id).0, RightfulHolder(ActivateSpace(s, id).0))
    ensures RightfulHolder(ActivateSpace(s, id).0) == CurrentHost(s.spaces[IndexOfSpace(s.spaces, id).value].tabs)
  {
    hide HostsOf;
    hide DisjointHosts;
    hide TabsOk;
    var a, target := IndexOfSpace(s.spaces, s.active).value, IndexOfSpace(s.spaces, id).value;
    if id != s.active {
      ActivatedTabs(s, id);
      var s' := ActivateSpace(s, id).0;
      hide ActivateSpace;
      ActivatedOk(s, s', id);
      hide SpacesOk;
      ActivatedReady(s, s', a, target);
      hide FocusReady;
      SameCurrent(s.spaces[target].tabs, s'.spaces[target].tabs);
    }
  }

  lemma SameCurrent(t: Tabs, t': Tabs)
    requires t'.tabs == t.tabs && t'.active == t.active
    ensures CurrentHost(t') == CurrentHost(t)
  {}

  lemma ActivatedOk(s: Spaces, s': Spaces, id: int)
    requires SpacesOk(s) && |s'.spaces| == |s.spaces| && s'.next == s.next && s'.active == id
             && id in SpaceIds(s.spaces)
    requires forall i :: 0 <= i < |s.spaces| ==>
               s'.spaces[i] == s.spaces[i].(tabs := s.spaces[i].tabs.(focusEnabled := s'.spaces[i].tabs.focusEnabled))
    ensures SpacesOk(s') && SpaceIds(s'.spaces) == SpaceIds(s.spaces)
    ensures IndexOfSpace(s'.spaces, id) == IndexOfSpace(s.spaces, id)
  {
    assert SpaceIds(s'.spaces) == SpaceIds(s.spaces);
    IndexByIds(s.spaces, s'.spaces, id);
    forall i | 0 <= i < |s'.spaces| ensures TabsOk(s'.spaces[i].tabs) {
      assert TabsOk(s.spaces[i].tabs);
    }
  }

  lemma ActivatedTabs(s: Spaces, id: int)
    requires SpacesOk(s) && ActivateSpace(s, id).1 && id != s.active
    ensures var s' := ActivateSpace(s, id).0;
            var a, target := IndexOfSpace(s.spaces, s.active).value, IndexOfSpace(s.spaces, id).value;
            && s'.active == id && s'.next == s.next && a != target
            && (forall i :: 0 <= i < |s.spaces| ==>
                  s'.spaces[i] == s.spaces[i].(tabs := s.spaces[i].tabs.(
                    focusEnabled := if i == target then true else if i == a then false
                      else s.spaces[i].tabs.focusEnabled)))
  {
    hide TabsOk;
  }

  lemma ActivatedReady(s: Spaces, s': Spaces, a: nat, target: nat)
    requires FocusReady(s) && Distinct(SpaceIds(s.spaces)) && |s'.spaces| == |s.spaces|
    requires a < |s.spaces| && target < |s.spaces| && a != target && s.spaces[a].id == s.active
             && s.spaces[target].id == s'.active
    requires forall i :: 0 <= i < |s.spaces| ==>
               s'.spaces[i] == s.spaces[i].(tabs := s.spaces[i].tabs.(
                 focusEnabled := if i == target then true else if i == a then false else s.spaces[i].tabs.focusEnabled))
    ensures FocusReady(s')
  {
    hide HostsOf;
    hide DisjointHosts;
    forall i | 0 <= i < |s'.spaces| ensures s'.spaces[i].tabs.focusEnabled <==> s'.spaces[i].id == s'.active {
      assert SpaceIds(s.spaces)[i] == s.spaces[i].id;
      if i != target { assert SpaceIds(s.spaces)[i] != SpaceIds(s.spaces)[target]; }
      if i != a { assert SpaceIds(s.spaces)[i] != SpaceIds(s.spaces)[a]; }
    }
  }

  lemma CreateKeepsGlobalFocus(s: Spaces, holders: set<HostId>, name: string, root: string)
    requires GlobalFocus(s, holders)
    ensures GlobalFocus(CreateSpace(s, name, root).0, holders)
  {
    hide GlobalFocus;
    NoTabsOk();
    if CreateSpace(s, name, root).1 >= 0 {
      AppendKeepsGlobalFocus(s, holders, Space(s.next, name, root, SetFocusEnabled(NO_TABS, false)));
    }
  }

  lemma AppendKeepsGlobalFocus(s: Spaces, holders: set<HostId>, space: Space)
    requires GlobalFocus(s, holders) && space.id == s.next < LIMIT
    requires TabsOk(space.tabs) && !space.tabs.focusEnabled && space.tabs.tabs == []
    ensures GlobalFocus(s.(spaces := s.spaces + [space], next := s.next + 1), holders)
  {
    hide DisjointHosts;
    hide HostsOf;
    hide CurrentHost;
    hide TabsOk;
    AppendedOk(s, space);
    hide SpacesOk;
    AppendedReady(s, space);
    hide FocusReady;
  }

  lemma AppendedOk(s: Spaces, space: Space)
    requires SpacesOk(s) && space.id == s.next < LIMIT && TabsOk(space.tabs)
    ensures var s' := s.(spaces := s.spaces + [space], next := s.next + 1);
            && SpacesOk(s') && s.active in SpaceIds(s.spaces) && s.active != space.id
            && IndexOfSpace(s'.spaces, s.active) == IndexOfSpace(s.spaces, s.active)
  {
    hide TabsOk;
    var s' := s.(spaces := s.spaces + [space], next := s.next + 1);
    assert SpaceIds(s'.spaces) == SpaceIds(s.spaces) + [space.id];
    var a := IndexOfSpace(s.spaces, s.active).value;
    assert SpaceIds(s'.spaces)[a] == s.active;
    assert forall k :: 0 <= k < |s.spaces| ==> s'.spaces[k] == s.spaces[k];
  }

  lemma AppendedReady(s: Spaces, space: Space)
    requires FocusReady(s) && !space.tabs.focusEnabled && space.id != s.active && space.tabs.tabs == []
    ensures FocusReady(s.(spaces := s.spaces + [space], next := s.next + 1))
  {
    NoTabsOk();
    hide HostsOf;
    hide DisjointHosts;
  }

  lemma NoTabsOk()
    ensures TabsOk(NO_TABS) && TabsOk(SetFocusEnabled(NO_TABS, false)) && DisjointHosts([]) && HostsOf([]) == {}
  {}

  /// Dropping a Space that is not active.
  lemma DropKeepsGlobalFocus(s: Spaces, holders: set<HostId>, i: nat)
    requires GlobalFocus(s, holders) && i < |s.spaces| && s.spaces[i].id != s.active
    ensures var s' := s.(spaces := s.spaces[..i] + s.spaces[i + 1..]);
            GlobalFocus(s', holders) && holders - HostsOf(s.spaces[i].tabs.tabs) == holders
  {
    hide DisjointHosts;
    hide HostsOf;
    hide CurrentHost;
    hide TabsOk;
    var s' := s.(spaces := s.spaces[..i] + s.spaces[i + 1..]);
    var a := IndexOfSpace(s.spaces, s.active).value;
    SpacesApart(s, a, i);
    CurrentIsOwn(s.spaces[a].tabs);
    DroppedReady(s, i);
    hide FocusReady;
    DroppedHolder(s, i);
    DroppedOk(s, i);
    hide SpacesOk;
  }

  lemma DroppedIds(spaces: seq<Space>, i: nat)
    requires i < |spaces|
    ensures SpaceIds(spaces[..i] + spaces[i + 1..]) == SpaceIds(spaces)[..i] + SpaceIds(spaces)[i + 1..]
  {}

  lemma DroppedOk(s: Spaces, i: nat)
    requires SpacesOk(s) && i < |s.spaces| && s.spaces[i].id != s.active
    ensures SpacesOk(s.(spaces := s.spaces[..i] + s.spaces[i + 1..]))
  {
    hide TabsOk;
    DroppedIds(s.spaces, i);
    DroppedDistinct(SpaceIds(s.spaces), i);
    DroppedStill(SpaceIds(s.spaces), i, s.active);
    hide Distinct;
    hide SpaceIds;
    DroppedAt(s.spaces, i);
  }

  lemma DroppedHolder(s: Spaces, i: nat)
    requires Distinct(SpaceIds(s.spaces)) && s.active in SpaceIds(s.spaces) && i < |s.spaces|
             && s.spaces[i].id != s.active
    ensures var rest := s.spaces[..i] + s.spaces[i + 1..];
            && s.active in SpaceIds(rest)
            && rest[IndexOfSpace(rest, s.active).value] == s.spaces[IndexOfSpace(s.spaces, s.active).value]
  {
    DroppedIds(s.spaces, i);
    DroppedStill(SpaceIds(s.spaces), i, s.active);
    var rest := s.spaces[..i] + s.spaces[i + 1..];
    DroppedAt(s.spaces, i);
    SameById(s.spaces, rest, s.active);
  }

  /// An identifier that is unique names the same Space in any part of the sequence.
  lemma SameById(spaces: seq<Space>, part: seq<Space>, id: int)
    requires Distinct(SpaceIds(spaces)) && id in SpaceIds(spaces) && id in SpaceIds(part)
    requires forall k :: 0 <= k < |part| ==> part[k] in spaces
    ensures part[IndexOfSpace(part, id).value] == spaces[IndexOfSpace(spaces, id).value]
  {
    hide IndexOfSpace;
    UniqueById(spaces, IndexOfSpace(spaces, id).value, part[IndexOfSpace(part, id).value]);
  }

  lemma UniqueById(spaces: seq<Space>, a: nat, space: Space)
    requires Distinct(SpaceIds(spaces)) && a < |spaces| && space in spaces && space.id == spaces[a].id
    ensures space == spaces[a]
  {
    var c :| 0 <= c < |spaces| && spaces[c] == space;
    assert SpaceIds(spaces)[c] == SpaceIds(spaces)[a];
  }

  lemma DroppedReady(s: Spaces, i: nat)
    requires FocusReady(s) && i < |s.spaces|
    ensures FocusReady(s.(spaces := s.spaces[..i] + s.spaces[i + 1..]))
  {
    hide HostsOf;
    hide DisjointHosts;
    var s' := s.(spaces := s.spaces[..i] + s.spaces[i + 1..]);
    assert forall k :: 0 <= k < |s'.spaces| ==> s'.spaces[k] == s.spaces[if k < i then k else k + 1];
  }

  /// Closing a Space hands the focus over first if it is the active one, and then
  /// destroys its hosts; what is left holds the focus as it should.
  lemma CloseKeepsGlobalFocus(s: Spaces, holders: set<HostId>, id: int)
    requires GlobalFocus(s, holders) && CloseSpace(s, id).1
    ensures var s' := CloseSpace(s, id).0;
            && GlobalFocus(s', RightfulHolder(s')) && id !in SpaceIds(s'.spaces)
            && (id != s.active ==> RightfulHolder(s') == holders)
            && s'.active == (if id == s.active then s.spaces[Replacement(s.spaces, id).value].id else s.active)
  {
    hide DisjointHosts;
    hide HostsOf;
    hide CurrentHost;
    hide TabsOk;
    hide Distinct;
    hide RightfulHolder;
    hide FocusReady;
    var i := IndexOfSpace(s.spaces, id).value;
    var s1 := if id == s.active then ActivateSpace(s, s.spaces[Replacement(s.spaces, id).value].id).0 else s;
    if id == s.active {
      ActivateKeepsGlobalFocus(s, holders, s.spaces[Replacement(s.spaces, id).value].id);
      ActivatedAlike(s, s.spaces[Replacement(s.spaces, id).value].id);
    }
    hide ActivateSpace;
    DropKeepsGlobalFocus(s1, RightfulHolder(s1), i);
    DroppedIds(s1.spaces, i);
    DroppedGone(SpaceIds(s1.spaces), i);
  }

  lemma ActivatedAlike(s: Spaces, id: int)
    ensures SpaceIds(ActivateSpace(s, id).0.spaces) == SpaceIds(s.spaces)
    ensures ActivateSpace(s, id).1 ==> ActivateSpace(s, id).0.active == id
  {
    hide ActiveTab;
    assert forall i :: 0 <= i < |s.spaces| ==> ActivateSpace(s, id).0.spaces[i].id == s.spaces[i].id;
  }
}
