/** Turning a server topology snapshot into the local Spaces and tabs. The layout
    of one tab is projected elsewhere; here its outcome is an argument, as is the
    order in which hash maps are walked. */
module TopologyModel {
  import opened Identifiers
  import opened SplitTrees
  import opened PaneModel
  import opened TabModel
  import opened SpaceModel

  datatype RemoteTab = RemoteTab(id: string, name: string, nameUserSet: bool)
  datatype RemoteSpace = RemoteSpace(id: string, name: string, root: string, tabs: seq<RemoteTab>)

  type TabMap = map<string, (int, int)>

  datatype Topology = Topology(
    session: Spaces,
    /// Remote Space to local Space, and back.
    spaceMap: map<string, int>, localMap: map<int, string>,
    /// Remote tab to local Space and tab.
    tabMap: TabMap,
    /// The remote tab to enter once it is there; empty when there is none.
    startup: string)

  // ---------------------------------------------------------------------------
  // Identity maps of Spaces

  function BindSpace(t: Topology, remote: string, local: int): Topology {
    var spaceMap := if local in t.localMap then t.spaceMap - {t.localMap[local]} else t.spaceMap;
    var localMap := if remote in spaceMap then t.localMap - {spaceMap[remote]} else t.localMap;
    t.(spaceMap := spaceMap[remote := local], localMap := localMap[local := remote])
  }

  function EraseSpace(t: Topology, remote: string): Topology {
    if remote !in t.spaceMap then t
    else t.(localMap := t.localMap - {t.spaceMap[remote]}, spaceMap := t.spaceMap - {remote})
  }

  // ---------------------------------------------------------------------------
  // Projecting one tab

  /// How projecting a tab's layout goes: it cannot be converted, it is the one
  /// already applied, or the panes are reconciled with it.
  datatype Outcome = Rejected | Alike(panes: Panes) | Reconciled(panes: Panes, accepted: bool)

  predicate Projects(o: Outcome) {
    match o
    case Rejected => false
    case Alike(_) => true
    case Reconciled(_, accepted) => accepted
  }

  function ProjectOn(tab: Tab, remote: RemoteTab, o: Outcome): Tab {
    var named := tab.(name := remote.name, nameUserSet := remote.nameUserSet);
    match o
    case Rejected => named
    case Alike(panes) => named.(panes := panes)
    case Reconciled(panes, accepted) => named.(panes := panes, initialized := tab.initialized || accepted)
  }

  function ProjectTab(t: Tabs, id: int, remote: RemoteTab, o: Outcome): (Tabs, bool) {
    match IndexOfTab(t.tabs, id)
    case None => (t, false)
    case Some(i) => (t.(tabs := t.tabs[i := ProjectOn(t.tabs[i], remote, o)]), Projects(o))
  }

  // ---------------------------------------------------------------------------
  // One pass over the tabs of one Space

  datatype Pass = Pass(tabs: Tabs, tabMap: TabMap, reserved: set<int>, claimed: set<int>, ordered: seq<int>, ok: bool)

  function ReservedIn(tabMap: TabMap, space: int): set<int> {
    set r | r in tabMap && tabMap[r].0 == space :: tabMap[r].1
  }

  function StartPass(tabs: Tabs, tabMap: TabMap, space: int): Pass {
    Pass(tabs, tabMap, ReservedIn(tabMap, space), {}, [], true)
  }

  /// The first tab no remote tab has a claim on, or -1.
  function FirstUnreserved(tabs: seq<Tab>, reserved: set<int>): (id: int)
    ensures id == -1 || (id in Ids(tabs) && id !in reserved)
    ensures id == -1 ==> -1 in Ids(tabs) || forall i :: 0 <= i < |tabs| ==> tabs[i].id in reserved
  {
    if tabs == [] then -1
    else if tabs[0].id !in reserved then
      assert Ids(tabs)[0] == tabs[0].id;
      tabs[0].id
    else
      assert Ids(tabs) == [tabs[0].id] + Ids(tabs[1..]);
      FirstUnreserved(tabs[1..], reserved)
  }

  function Claim(p: Pass, id: int, remote: RemoteTab, o: Outcome): Pass {
    var (tabs, ok) := ProjectTab(p.tabs, id, remote, o);
    p.(tabs := tabs, claimed := p.claimed + {id}, ordered := p.ordered + [id], ok := p.ok && ok)
  }

  /// The local tab an unbound remote tab gets, and the tabs then; -1 if none.
  function Adopted(p: Pass): (Tabs, int) {
    var found := FirstUnreserved(p.tabs.tabs, p.reserved);
    if found < 0 then AddProjected(p.tabs) else (p.tabs, found)
  }

  /// Finds, adopts or adds the local tab of one remote tab, and projects it.
  function Place(p: Pass, space: int, remote: RemoteTab, o: Outcome): Pass {
    if remote.id in p.tabMap then Claim(p, p.tabMap[remote.id].1, remote, o)
    else
      var (tabs, id) := Adopted(p);
      if id < 0 then p.(tabs := tabs, ok := false)
      else Claim(p.(tabs := tabs, tabMap := p.tabMap[remote.id := (space, id)], reserved := p.reserved + {id}), id,
                 remote, o)
  }

  function PlaceAll(p: Pass, space: int, remotes: seq<RemoteTab>, outcomes: nat -> Outcome, k: nat): Pass
    requires k <= |remotes|
  {
    if k == 0 then p else Place(PlaceAll(p, space, remotes, outcomes, k - 1), space, remotes[k - 1], outcomes(k - 1))
  }

  function Unclaimed(tabs: seq<Tab>, claimed: set<int>): seq<int> {
    if tabs == [] then []
    else Unclaimed(tabs[..|tabs| - 1], claimed) + (if tabs[|tabs| - 1].id in claimed then [] else [tabs[|tabs| - 1].id])
  }

  function CloseEach(t: Tabs, ids: seq<int>): Tabs {
    if ids == [] then t else CloseTab(CloseEach(t, ids[..|ids| - 1]), ids[|ids| - 1]).0
  }

  /// The tab active before stays so if it was claimed; otherwise, if none is
  /// active any more, the first remote tab's one is.
  function Reactivate(t: Tabs, p: Pass, active: int, remotes: seq<RemoteTab>): Tabs {
    if active >= 0 && active in p.claimed then Activate(t, active).0
    else if ActiveTab(t).None? && remotes != []
      && remotes[0].id in p.tabMap then Activate(t, p.tabMap[remotes[0].id].1).0
    else t
  }

  function FinishPass(p: Pass, active: int, remotes: seq<RemoteTab>): (Tabs, bool) {
    var (ordered, ok) := Reorder(CloseEach(p.tabs, Unclaimed(p.tabs.tabs, p.claimed)), p.ordered);
    (Reactivate(ordered, p, active, remotes), p.ok && ok)
  }

  function PassOver(tabs: Tabs, tabMap: TabMap, space: int, remotes: seq<RemoteTab>, outcomes: nat -> Outcome): Pass {
    PlaceAll(StartPass(tabs, tabMap, space), space, remotes, outcomes, |remotes|)
  }

  function ApplySpace(t: Topology, remote: RemoteSpace, outcomes: nat -> Outcome): (Topology, bool) {
    if remote.id !in t.spaceMap then (t, true)
    else
      match IndexOfSpace(t.session.spaces, t.spaceMap[remote.id])
      case None => (t, true)
      case Some(i) =>
        var before := t.session.spaces[i].tabs;
        var p := PassOver(before, t.tabMap, t.spaceMap[remote.id], remote.tabs, outcomes);
        var (tabs, ok) := FinishPass(p, before.active, remote.tabs);
        (t.(session := WithTabs(t.session, i, tabs), tabMap := p.tabMap), ok)
  }

  // ---------------------------------------------------------------------------
  // All tabs

  type Outcomes = nat -> nat -> Outcome

  function ApplyEach(t: Topology, snap: seq<RemoteSpace>, outcomes: Outcomes, k: nat): (Topology, bool)
    requires k <= |snap|
  {
    if k == 0 then (t, true)
    else
      var (t1, ok1) := ApplyEach(t, snap, outcomes, k - 1);
      var (t2, ok2) := ApplySpace(t1, snap[k - 1], outcomes(k - 1));
      (t2, ok1 && ok2)
  }

  function LiveTabs(snap: seq<RemoteSpace>): set<string> {
    set i, j | 0 <= i < |snap| && 0 <= j < |snap[i].tabs| :: snap[i].tabs[j].id
  }

  /// Every remote Space has its local one, and no remote tab has moved to another Space.
  predicate Resolvable(t: Topology, snap: seq<RemoteSpace>) {
    forall i :: 0 <= i < |snap| ==>
      && snap[i].id in t.spaceMap && t.spaceMap[snap[i].id] in SpaceIds(t.session.spaces)
      && forall j :: 0 <= j < |snap[i].tabs| && snap[i].tabs[j].id in t.tabMap ==>
           t.tabMap[snap[i].tabs[j].id].0 == t.spaceMap[snap[i].id]
  }

  function CloseIn(s: Spaces, space: int, tab: int): Spaces {
    match IndexOfSpace(s.spaces, space)
    case None => s
    case Some(i) => WithTabs(s, i, CloseTab(s.spaces[i].tabs, tab).0)
  }

  /// Closes the local tabs of remote tabs that are gone, in the order given.
  function SweepSession(s: Spaces, tabMap: TabMap, live: set<string>, order: seq<string>): Spaces {
    if order == [] then s
    else
      var before := SweepSession(s, tabMap, live, order[..|order| - 1]);
      var r := order[|order| - 1];
      if r in live || r !in tabMap then before else CloseIn(before, tabMap[r].0, tabMap[r].1)
  }

  function Sweep(t: Topology, live: set<string>, order: seq<string>): Topology {
    t.(session := SweepSession(t.session, t.tabMap, live, order), tabMap := map r | r in t.tabMap
       && r in live :: t.tabMap[r])
  }

  /// Enters the start-up tab, once, when it is there.
  function EnterStartup(t: Topology): Topology {
    if t.startup == "" || t.startup !in t.tabMap then t
    else
      var (space, tab) := t.tabMap[t.startup];
      match IndexOfSpace(t.session.spaces, space)
      case None => t
      case Some(i) =>
        var (tabs, found) := Activate(t.session.spaces[i].tabs, tab);
        if !found then t
        else
          var (session, entered) := ActivateSpace(WithTabs(t.session, i, tabs), space);
          t.(session := session, startup := if entered then "" else t.startup)
  }

  function ApplyTabs(t: Topology, snap: seq<RemoteSpace>, outcomes: Outcomes, order: seq<string>): (Topology, bool) {
    if !Resolvable(t, snap) then (t, false)
    else
      var (t1, ok) := ApplyEach(t, snap, outcomes, |snap|);
      var t2 := Sweep(t1, LiveTabs(snap), order);
      (if ok then EnterStartup(t2) else t2, ok)
  }

  // ---------------------------------------------------------------------------
  // All Spaces

  function LiveSpaces(snap: seq<RemoteSpace>): set<string> {
    set i | 0 <= i < |snap| :: snap[i].id
  }

  /// Local Spaces for the first k remote ones; stops at the first that cannot be made.
  function CreateMissing(t: Topology, snap: seq<RemoteSpace>, k: nat): (Topology, bool)
    requires k <= |snap|
  {
    if k == 0 then (t, true)
    else
      var (t1, ok) := CreateMissing(t, snap, k - 1);
      var remote := snap[k - 1];
      if !ok || remote.id in t1.spaceMap then (t1, ok)
      else
        var (session, id) := CreateSpace(t1.session, remote.name, remote.root);
        if id < 0 then (t1, false) else (BindSpace(t1.(session := session), remote.id, id), true)
  }

  /// Closes the local Spaces of remote Spaces that are gone, in the order given;
  /// also which of them could be closed.
  function CloseRemoved(s: Spaces, spaceMap: map<string, int>, live: set<string>, order: seq<string>): (Spaces,
      seq<string>) {
    if order == [] then (s, [])
    else
      var (s1, removed) := CloseRemoved(s, spaceMap, live, order[..|order| - 1]);
      var r := order[|order| - 1];
      if r in live || r !in spaceMap then (s1, removed)
      else
        var (s2, ok) := CloseSpace(s1, spaceMap[r]);
        (s2, if ok then removed + [r] else removed)
  }

  function EraseAll(t: Topology, removed: seq<string>): Topology {
    if removed == [] then t else EraseSpace(EraseAll(t, removed[..|removed| - 1]), removed[|removed| - 1])
  }

  function Rename(t: Topology, snap: seq<RemoteSpace>, k: nat): Topology
    requires k <= |snap|
  {
    if k == 0 then t
    else
      var t1 := Rename(t, snap, k - 1);
      var remote := snap[k - 1];
      if remote.id !in t1.spaceMap then t1
      else
        var local := t1.spaceMap[remote.id];
        t1.(session := SetSpaceRoot(RenameSpace(t1.session, local, remote.name), local, remote.root))
  }

  /// The Space phase; false when there are no Spaces or one cannot be made.
  function ApplySpaces(t: Topology, snap: seq<RemoteSpace>, order: seq<string>): (Topology, bool) {
    if snap == [] then (t, false)
    else
      var t1 := if t.spaceMap == map[] then BindSpace(t, snap[0].id, t.session.active) else t;
      var (t2, ok) := CreateMissing(t1, snap, |snap|);
      if !ok then (t2, false)
      else
        var (session, removed) := CloseRemoved(t2.session, t2.spaceMap, LiveSpaces(snap), order);
        (Rename(EraseAll(t2.(session := session), removed), snap, |snap|), true)
  }

  function ApplySnapshot(t: Topology, snap: seq<RemoteSpace>, outcomes: Outcomes, spaceOrder: seq<string>,
                         tabOrder: seq<string>): (Topology, bool) {
    var (t1, ok) := ApplySpaces(t, snap, spaceOrder);
    if !ok then (t1, false) else ApplyTabs(t1, snap, outcomes, tabOrder)
  }
}
