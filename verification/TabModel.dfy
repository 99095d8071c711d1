/** The tabs of one Space and what the tab controller does to them. Each tab owns
    its panes, so a tab is a value. */
module TabModel {
  import opened Identifiers
  import opened SplitTrees
  import opened PaneModel
  import opened PaneInvariants

  datatype Tab = Tab(id: int, name: string, nameUserSet: bool, panes: Panes, initialized: bool)

  datatype Tabs = Tabs(tabs: seq<Tab>, active: int, next: int, focusEnabled: bool)

  const NO_TABS := Tabs([], -1, 0, true)

  function Ids(tabs: seq<Tab>): (s: seq<int>)
    ensures |s| == |tabs| && forall i :: 0 <= i < |tabs| ==> s[i] == tabs[i].id
  {
    seq(|tabs|, i requires 0 <= i < |tabs| => tabs[i].id)
  }

  /// Position of the first tab called id.
  function IndexOfTab(tabs: seq<Tab>, id: int): (r: Option<nat>)
    ensures r.Some? <==> id in Ids(tabs)
    ensures r.Some? ==> r.value < |tabs| && tabs[r.value].id == id
    ensures r.Some? ==> forall k :: 0 <= k < r.value ==> tabs[k].id != id
  {
    if tabs == [] then None
    else if tabs[0].id == id then
      assert Ids(tabs)[0] == id;
      Some(0)
    else
      assert Ids(tabs) == [tabs[0].id] + Ids(tabs[1..]);
      match IndexOfTab(tabs[1..], id)
      case None => None
      case Some(i) => Some(i + 1)
  }

  function ActiveTab(t: Tabs): Option<Tab> {
    match IndexOfTab(t.tabs, t.active)
    case None => None
    case Some(i) => Some(t.tabs[i])
  }

  // ---------------------------------------------------------------------------
  // Hosts and focus

  function HostsOf(tabs: seq<Tab>): set<HostId> {
    set i, h | 0 <= i < |tabs| && h in tabs[i].panes.hosts.Values :: h
  }

  function FocusedHost(p: Panes): set<HostId> {
    if p.tree.focused in p.hosts then {p.hosts[p.tree.focused]} else {}
  }

  /// The host that a focus hand-over inside this Space would take focus from.
  function CurrentHost(t: Tabs): set<HostId> {
    if ActiveTab(t).Some? then FocusedHost(ActiveTab(t).value.panes) else {}
  }

  /// The host of this Space that should hold focus.
  function Holder(t: Tabs): set<HostId> {
    if t.focusEnabled then CurrentHost(t) else {}
  }

  // ---------------------------------------------------------------------------
  // Operations

  function Activate(t: Tabs, id: int): (Tabs, bool) {
    if id in Ids(t.tabs) then (t.(active := id), true) else (t, false)
  }

  /// A new tab whose panes were created, or None when that failed; the identifier
  /// is consumed either way.
  function AddTab(t: Tabs, created: Option<Panes>, name: string): (Tabs, int) {
    if Allocate(t.next).None? then (t, -1)
    else if created.None? then (t.(next := t.next + 1), -1)
    else
      var tab := Tab(t.next, name, false, created.value, true);
      (Activate(t.(tabs := t.tabs + [tab], next := t.next + 1), t.next).0, t.next)
  }

  function AddProjected(t: Tabs): (Tabs, int) {
    if Allocate(t.next).None? then (t, -1)
    else (t.(tabs := t.tabs + [Tab(t.next, "tab", false, NO_PANES, false)], next := t.next + 1), t.next)
  }

  function CloseTab(t: Tabs, id: int): (Tabs, bool) {
    if |t.tabs| <= 1 then (t, false)
    else
      match IndexOfTab(t.tabs, id)
      case None => (t, false)
      case Some(i) =>
        var replacement := if i + 1 < |t.tabs| then i + 1 else i - 1;
        (t.(active := if id == t.active then t.tabs[replacement].id else t.active,
            tabs := t.tabs[..i] + t.tabs[i + 1..]), true)
  }

  /// Every tab shut down.
  function CloseAll(t: Tabs): Tabs {
    t.(tabs := [], active := -1)
  }

  function SetFocusEnabled(t: Tabs, enabled: bool): Tabs {
    t.(focusEnabled := enabled)
  }

  function NextTab(t: Tabs): Tabs {
    match IndexOfTab(t.tabs, t.active)
    case None => t
    case Some(i) => if |t.tabs| <= 1 then t else Activate(t, t.tabs[(i + 1) % |t.tabs|].id).0
  }

  function PrevTab(t: Tabs): Tabs {
    match IndexOfTab(t.tabs, t.active)
    case None => t
    case Some(i) => if |t.tabs| <= 1 then t else Activate(t, t.tabs[if i == 0 then |t.tabs| - 1 else i - 1].id).0
  }

  function MoveTab(t: Tabs, direction: int): Tabs
    requires -|t.tabs| <= direction
  {
    match IndexOfTab(t.tabs, t.active)
    case None => t
    case Some(i) =>
      if |t.tabs| <= 1 then t
      else
        var target := (i + direction + |t.tabs|) % |t.tabs|;
        t.(tabs := t.tabs[i := t.tabs[target]][target := t.tabs[i]])
  }

  predicate SameIds(tabs: seq<Tab>, ids: seq<int>) {
    && |ids| == |tabs|
    && (forall i :: 0 <= i < |ids| ==> ids[i] in Ids(tabs))
    && (forall i :: 0 <= i < |tabs| ==> tabs[i].id in ids)
    && (forall i, j :: 0 <= i < j < |ids| ==> ids[i] != ids[j])
  }

  /// The tabs in the order of ids.
  function Reordered(tabs: seq<Tab>, ids: seq<int>): (r: seq<Tab>)
    requires forall i :: 0 <= i < |ids| ==> ids[i] in Ids(tabs)
    ensures |r| == |ids|
  {
    seq(|ids|, i requires 0 <= i < |ids| => tabs[IndexOfTab(tabs, ids[i]).value])
  }

  function Reorder(t: Tabs, ids: seq<int>): (Tabs, bool) {
    if SameIds(t.tabs, ids) then (t.(tabs := Reordered(t.tabs, ids)), true) else (t, false)
  }

  // ---------------------------------------------------------------------------
  // Saving and restoring

  datatype TabSnapshot = TabSnapshot(id: int, name: string, nameUserSet: bool, layout: LayoutSnapshot)

  function SaveTab(tab: Tab, cwd: LeafId -> string): Option<TabSnapshot> {
    match SnapshotLayout(tab.panes, cwd)
    case None => None
    case Some(layout) => Some(TabSnapshot(tab.id, tab.name, tab.nameUserSet, layout))
  }

  /// All tabs saved, or None if one cannot be.
  function SaveTabs(tabs: seq<Tab>, cwd: int -> LeafId -> string): Option<seq<TabSnapshot>> {
    if tabs == [] then Some([])
    else
      var last := tabs[|tabs| - 1];
      match (SaveTabs(tabs[..|tabs| - 1], cwd), SaveTab(last, cwd(last.id)))
      case (Some(front), Some(tab)) => Some(front + [tab])
      case _ => None
  }

  function RestoreTab(deps: Deps, snap: TabSnapshot, factory: LeafId -> HostMaker): Option<Tab> {
    var (panes, ok) := RestoreLayout(NO_PANES, deps, snap.layout, factory);
    if ok then Some(Tab(snap.id, if snap.name == "" then "tab" else snap.name, snap.nameUserSet, panes, true))
    else None
  }

  /// The tabs whose panes come back, in saved order.
  function Survivors(deps: Deps, snaps: seq<TabSnapshot>, factory: int -> LeafId -> HostMaker): seq<Tab> {
    if snaps == [] then []
    else
      var last := snaps[|snaps| - 1];
      var front := Survivors(deps, snaps[..|snaps| - 1], factory);
      match RestoreTab(deps, last, factory(last.id))
      case None => front
      case Some(tab) => front + [tab]
  }

  function SnapIds(snaps: seq<TabSnapshot>): (s: seq<int>)
    ensures |s| == |snaps| && forall i :: 0 <= i < |snaps| ==> s[i] == snaps[i].id
  {
    seq(|snaps|, i requires 0 <= i < |snaps| => snaps[i].id)
  }

  predicate UsableIds(ids: seq<int>) {
    && (forall i :: 0 <= i < |ids| ==> ValidIdentifier(ids[i]))
    && (forall i, j :: 0 <= i < j < |ids| ==> ids[i] != ids[j])
  }

  function MaxOf(ids: seq<int>): (m: int)
    ensures forall i :: 0 <= i < |ids| ==> ids[i] <= m
    ensures m == -1 || m in ids
    ensures m >= -1
  {
    if ids == [] then -1 else Max(MaxOf(ids[..|ids| - 1]), ids[|ids| - 1])
  }

  function RestoredActive(tabs: seq<Tab>, wanted: int): int
    requires |tabs| > 0
  {
    if wanted in Ids(tabs) then wanted else tabs[0].id
  }

  /// Replaces the tabs by the saved ones, or leaves everything as it was.
  function RestoreTabs(t: Tabs, deps: Deps, snaps: seq<TabSnapshot>, active: int, next: int,
                       factory: int -> LeafId -> HostMaker, strict: bool): (Tabs, bool)
  {
    var survivors := Survivors(deps, snaps, factory);
    if |snaps| == 0 || !UsableIds(SnapIds(snaps)) then (t, false)
    else if (strict && |survivors| < |snaps|) || |survivors| == 0 then (t, false)
    else
      var top := MaxOf(SnapIds(snaps)) + 1;
      (Tabs(survivors, RestoredActive(survivors, active),
            if top <= LIMIT then Clamp(next, top, LIMIT) else LIMIT, t.focusEnabled), true)
  }
}
