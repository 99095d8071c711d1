/** Whole runs of a session: any sequence of Space, tab and pane operations and of
    tabs projected by the server, each with the focus calls it makes on hosts. */
module SessionRuns {
  import opened Identifiers
  import opened SplitTrees
  import opened PaneModel
  import opened PaneInvariants
  import opened PaneFocus
  import opened PaneOrigins
  import opened TabModel
  import opened TabControllers
  import opened TabLaws
  import opened SpaceModel
  import opened SessionRestore
  import opened TabProjection
  import T = TopologyModel

  /// A session together with the hosts whose focus flag is set.
  datatype Live = Live(session: Spaces, holders: set<HostId>)

  datatype SessionOp =
    | InSpace(i: nat, op: TabOp)
    | InPanes(deps: Deps, paneOp: PaneOp)
    | Project(i: nat, tab: int, deps: Deps, remote: T.RemoteTab, arrival: Arrival)
    | Create(name: string, root: string)
    | Enter(id: int)
    | Rename(id: int, name: string)
    | SetRoot(id: int, root: string)
    | Close(id: int)
    | Restore(deps: Deps, snaps: seq<SpaceSnapshot>, active: int, next: int, factory: Factory)

  function AllHosts(s: Spaces): set<HostId> {
    set i, h | 0 <= i < |s.spaces| && h in HostsOf(s.spaces[i].tabs.tabs) :: h
  }

  /// Where the user is: the active Space and its active tab.
  function ActivePlace(s: Spaces): (r: Option<(nat, nat)>)
    ensures r.Some? ==> r.value.0 < |s.spaces| && r.value.1 < |s.spaces[r.value.0].tabs.tabs|
  {
    match IndexOfSpace(s.spaces, s.active)
    case None => None
    case Some(i) =>
      match IndexOfTab(s.spaces[i].tabs.tabs, s.spaces[i].tabs.active)
      case None => None
      case Some(j) => Some((i, j))
  }

  function WithTab(s: Spaces, at: (nat, nat), tab: Tab): Spaces
    requires at.0 < |s.spaces| && at.1 < |s.spaces[at.0].tabs.tabs|
  {
    var t := s.spaces[at.0].tabs;
    WithTabs(s, at.0, t.(tabs := t.tabs[at.1 := tab]))
  }

  function TabAt(s: Spaces, at: (nat, nat)): Tab
    requires at.0 < |s.spaces| && at.1 < |s.spaces[at.0].tabs.tabs|
  {
    s.spaces[at.0].tabs.tabs[at.1]
  }

  function PanesAt(s: Spaces, at: (nat, nat)): Panes
    requires at.0 < |s.spaces| && at.1 < |s.spaces[at.0].tabs.tabs|
  {
    TabAt(s, at).panes
  }

  /// The tab a projection goes to.
  function ProjectedPlace(s: Spaces, i: nat, tab: int): (r: Option<(nat, nat)>)
    ensures r.Some? ==> r.value.0 < |s.spaces| && r.value.1 < |s.spaces[r.value.0].tabs.tabs|
  {
    if i >= |s.spaces| then None
    else
      match IndexOfTab(s.spaces[i].tabs.tabs, tab)
      case None => None
      case Some(j) => Some((i, j))
  }

  /// Host objects are new when they are made; the panes of a new tab are as their
  /// creation leaves them; and a restore reads layouts that were checked, and makes
  /// hosts of which each can say for which tab it was made.
  ghost predicate Possible(s: Spaces, op: SessionOp) {
    match op
    case InSpace(i, op) =>
      && i < |s.spaces| && Applicable(s.spaces[i].tabs, op) && NewHosts(op) !! AllHosts(s)
      && (op.OpAdd? && op.created.Some? ==> Own(op.created.value))
    case InPanes(deps, op) => ActivePlace(s).Some? && NewPaneHosts(op) !! AllHosts(s)
    case Project(i, tab, deps, _, a) =>
      && ProjectedPlace(s, i, tab).Some? && ArrivalHosts(a) !! AllHosts(s)
      && Arrives(PanesAt(s, ProjectedPlace(s, i, tab).value), deps, a)
    case Restore(_, snaps, _, _, factory) =>
      && (exists tag :: MakersApart(factory, tag)) && (forall s, t :: LeavesApart(factory(s)(t)))
      && (forall i :: 0 <= i < |snaps| ==> CheckedTabs(snaps[i].tabs))
    case _ => true
  }

  ghost predicate CheckedTabs(snaps: seq<TabSnapshot>) {
    forall i :: 0 <= i < |snaps| ==> Checked(snaps[i].layout)
  }

  /// A pane operation whose calls do not follow the focus, or a projection that
  /// loses it in the tab in front or takes it in another one.
  ghost predicate Astray(s: Spaces, op: SessionOp)
    requires Possible(s, op)
  {
    match op
    case InPanes(deps, op) => OutOfStep(PanesAt(s, ActivePlace(s).value), deps, op)
    case Project(i, tab, deps, _, a) =>
      var at := ProjectedPlace(s, i, tab).value;
      if ActivePlace(s) == Some(at) then FrontAstray(PanesAt(s, at), deps, a) else BehindAstray(PanesAt(s, at), a)
    case _ => false
  }

  /// Focus calls of entering a Space: lost in the one left, gained in the one entered.
  ghost function EnterFocus(s: Spaces, holders: set<HostId>, id: int): set<HostId> {
    if id == s.active || !ActivateSpace(s, id).1 then holders
    else
      var left := match IndexOfSpace(s.spaces, s.active) case None => {} case Some(a) => Holder(s.spaces[a].tabs);
      var target := s.spaces[IndexOfSpace(s.spaces, id).value].tabs;
      holders - left + (if target.focusEnabled then {} else CurrentHost(target))
  }

  /// Focus calls of closing a Space: a hand-over if it is active, then its hosts go.
  ghost function CloseFocus(s: Spaces, holders: set<HostId>, id: int): set<HostId> {
    if !CloseSpace(s, id).1 then holders
    else
      var handed := if id == s.active then EnterFocus(s, holders, s.spaces[Replacement(s.spaces, id).value].id)
        else holders;
      handed - HostsOf(s.spaces[IndexOfSpace(s.spaces, id).value].tabs.tabs)
  }

  ghost function After(l: Live, op: SessionOp): Live
    requires Possible(l.session, op)
  {
    var s, holders := l.session, l.holders;
    match op
    case InSpace(i, op) =>
      Live(WithTabs(s, i, TabResult(s.spaces[i].tabs, op)), TabFocus(s.spaces[i].tabs, holders, op))
    case InPanes(deps, op) =>
      var at := ActivePlace(s).value;
      var p := PanesAt(s, at);
      Live(WithTab(s, at, TabAt(s, at).(panes := PaneResult(p, deps, op))), PaneCalls(p, deps, op, holders))
    case Project(i, tab, deps, remote, a) =>
      var p := PanesAt(s, ProjectedPlace(s, i, tab).value);
      Live(WithTabs(s, i, T.ProjectTab(s.spaces[i].tabs, tab, remote, OutcomeOf(p, a)).0), ArrivalCalls(p, a, holders))
    case Create(name, root) => Live(CreateSpace(s, name, root).0, holders)
    case Enter(id) => Live(ActivateSpace(s, id).0, EnterFocus(s, holders, id))
    case Rename(id, name) => Live(RenameSpace(s, id, name), holders)
    case SetRoot(id, root) => Live(SetSpaceRoot(s, id, root), holders)
    case Close(id) => Live(CloseSpace(s, id).0, CloseFocus(s, holders, id))
    case Restore(deps, snaps, active, next, factory) =>
      match RestoreSpaces(s, deps, snaps, active, next, factory)
      case Restored(s') => Live(s', holders - AllHosts(s) + RightfulHolder(s'))
      case _ => l
  }

  ghost predicate Focused(l: Live) {
    GlobalFocus(l.session, l.holders)
  }

  ghost predicate OwnTabs(tabs: seq<Tab>) {
    forall j :: 0 <= j < |tabs| ==> Own(tabs[j].panes)
  }

  /// The panes of every tab are sound, each leaf with a host object of its own.
  ghost predicate EveryOwn(s: Spaces) {
    forall i :: 0 <= i < |s.spaces| ==> OwnTabs(s.spaces[i].tabs.tabs)
  }

  lemma OwnHosts(s: Spaces, i: nat)
    requires i < |s.spaces|
    ensures HostsOf(s.spaces[i].tabs.tabs) <= AllHosts(s)
  {
    hide HostsOf;
  }

  lemma InSpaceKeeps(s: Spaces, holders: set<HostId>, i: nat, op: TabOp)
    requires GlobalFocus(s, holders) && Possible(s, InSpace(i, op))
    ensures Focused(After(Live(s, holders), InSpace(i, op)))
  {
    var t := s.spaces[i].tabs;
    hide TabResult;
    hide TabFocus;
    hide HostsOf;
    hide AllHosts;
    hide DisjointHosts;
    hide HandedOver;
    OwnHosts(s, i);
    GlobalIsLocal(s, holders, i);
    assert TabsOk(t);
    hide FocusAgrees;
    TabOpKeeps(t, holders, op);
    var t', holders' := TabResult(t, op), TabFocus(t, holders, op);
    forall j | 0 <= j < |s.spaces| && j != i ensures HostsOf(t'.tabs) !! HostsOf(s.spaces[j].tabs.tabs) {
      OwnHosts(s, j);
      if i < j { assert HostsOf(t.tabs) !! HostsOf(s.spaces[j].tabs.tabs); }
      else { assert HostsOf(s.spaces[j].tabs.tabs) !! HostsOf(t.tabs); }
    }
    hide GlobalFocus;
    hide TabsOk;
    TabOperationKeepsGlobalFocus(s, holders, i, t', holders');
  }

  lemma EnterKeeps(s: Spaces, holders: set<HostId>, id: int)
    requires GlobalFocus(s, holders)
    ensures GlobalFocus(ActivateSpace(s, id).0, EnterFocus(s, holders, id))
  {
    hide HostsOf;
    hide TabsOk;
    hide DisjointHosts;
    if id != s.active && ActivateSpace(s, id).1 {
      ActivateKeepsGlobalFocus(s, holders, id);
      var a, target := IndexOfSpace(s.spaces, s.active).value, IndexOfSpace(s.spaces, id).value;
      assert s.spaces[a].tabs.focusEnabled && !s.spaces[target].tabs.focusEnabled;
      hide GlobalFocus;
      hide CurrentHost;
      assert holders == Holder(s.spaces[a].tabs);
    }
  }

  lemma CloseKeeps(s: Spaces, holders: set<HostId>, id: int)
    requires GlobalFocus(s, holders)
    ensures Focused(After(Live(s, holders), Close(id)))
  {
    hide HostsOf;
    hide TabsOk;
    hide DisjointHosts;
    hide FocusReady;
    hide CurrentHost;
    hide Distinct;
    hide RightfulHolder;
    hide IndexOfSpace;
    hide Replacement;
    hide SpacesOk;
    hide ActivateSpace;
    hide EnterFocus;
    if CloseSpace(s, id).1 {
      var i := IndexOfSpace(s.spaces, id).value;
      if id == s.active {
        var j := s.spaces[Replacement(s.spaces, id).value].id;
        EnterKeeps(s, holders, j);
        ActivatedAlike(s, j);
        SameHosts(s, j, i);
        DropKeepsGlobalFocus(ActivateSpace(s, j).0, EnterFocus(s, holders, j), i);
      } else {
        DropKeepsGlobalFocus(s, holders, i);
      }
    }
  }

  lemma SameHosts(s: Spaces, id: int, i: nat)
    requires i < |s.spaces|
    ensures ActivateSpace(s, id).0.spaces[i].tabs.tabs == s.spaces[i].tabs.tabs
    ensures ActivateSpace(s, id).0.spaces[i].id == s.spaces[i].id
  {
    hide ActiveTab;
  }

  lemma AlikeKeeps(s: Spaces, s': Spaces, holders: set<HostId>)
    requires GlobalFocus(s, holders) && |s'.spaces| == |s.spaces| && s'.active == s.active && s'.next == s.next
    requires forall i :: 0 <= i < |s.spaces| ==>
               s'.spaces[i].id == s.spaces[i].id && s'.spaces[i].tabs == s.spaces[i].tabs
    ensures GlobalFocus(s', holders)
  {
    hide HostsOf;
    hide TabsOk;
    hide DisjointHosts;
    hide CurrentHost;
    hide IndexOfSpace;
    assert SpaceIds(s'.spaces) == SpaceIds(s.spaces);
    IndexByIds(s.spaces, s'.spaces, s.active);
  }

  lemma RestoreKeeps(s: Spaces, holders: set<HostId>, deps: Deps, snaps: seq<SpaceSnapshot>, active: int, next: int,
                     factory: Factory)
    requires GlobalFocus(s, holders) && Possible(s, Restore(deps, snaps, active, next, factory))
    ensures Focused(After(Live(s, holders), Restore(deps, snaps, active, next, factory)))
  {
    hide RestoreSpaces;
    hide MakersApart;
    hide HostsOf;
    hide CurrentHost;
    hide FocusReady;
    var tag :| MakersApart(factory, tag);
    RestoreSpacesLaw(s, deps, snaps, active, next, factory, tag);
    var a := IndexOfSpace(s.spaces, s.active).value;
    CurrentIsOwn(s.spaces[a].tabs);
    OwnHosts(s, a);
    hide AllHosts;
    assert holders - AllHosts(s) == {};
  }

  /// A pane operation of the active tab keeps the focus of the session right
  /// exactly when its calls follow the focus.
  lemma InPanesKeeps(s: Spaces, holders: set<HostId>, deps: Deps, op: PaneOp)
    requires GlobalFocus(s, holders) && EveryOwn(s) && Possible(s, InPanes(deps, op))
    ensures Focused(After(Live(s, holders), InPanes(deps, op))) <==> !Astray(s, InPanes(deps, op))
  {
    hide GlobalFocus;
    hide EveryOwn;
    hide Own;
    hide FocusedHost;
    hide AllHosts;
    hide OutOfStep;
    hide NewPaneHosts;
    hide PaneCalls;
    hide PaneResult;
    hide ActivePlace;
    hide WithTab;
    var at := ActivePlace(s).value;
    var p := PanesAt(s, at);
    var tab := TabAt(s, at).(panes := PaneResult(p, deps, op));
    ActiveOwn(s, at);
    HolderIsFocused(s, holders, at);
    PanesHosts(s, at);
    HolderFollows(p, deps, op, holders);
    PaneOpKeepsOwn(p, deps, op);
    TabChanged(s, holders, at, tab, NewPaneHosts(op));
    FocusIsHolder(WithTab(s, at, tab), FocusedHost(tab.panes), PaneCalls(p, deps, op, holders));
  }

  lemma ActiveOwn(s: Spaces, at: (nat, nat))
    requires EveryOwn(s) && at.0 < |s.spaces| && at.1 < |s.spaces[at.0].tabs.tabs|
    ensures Own(PanesAt(s, at))
  {
    assert OwnTabs(s.spaces[at.0].tabs.tabs);
    hide Own;
  }

  lemma FocusIsHolder(s: Spaces, holders: set<HostId>, others: set<HostId>)
    requires GlobalFocus(s, holders)
    ensures GlobalFocus(s, others) <==> others == holders
  {
    hide SpacesOk;
    hide FocusReady;
    hide RightfulHolder;
  }

  lemma HolderIsFocused(s: Spaces, holders: set<HostId>, at: (nat, nat))
    requires GlobalFocus(s, holders) && ActivePlace(s) == Some(at)
    ensures holders == FocusedHost(PanesAt(s, at))
  {
    hide SpacesOk;
    hide FocusReady;
    hide IndexOfSpace;
    hide IndexOfTab;
  }

  lemma PanesHosts(s: Spaces, at: (nat, nat))
    requires at.0 < |s.spaces| && at.1 < |s.spaces[at.0].tabs.tabs|
    ensures PanesAt(s, at).hosts.Values <= AllHosts(s)
  {
    var tabs := s.spaces[at.0].tabs.tabs;
    TabHosts(tabs, at.1);
    OwnHosts(s, at.0);
    hide AllHosts;
    hide HostsOf;
  }

  lemma TabHosts(tabs: seq<Tab>, j: nat)
    requires j < |tabs|
    ensures tabs[j].panes.hosts.Values <= HostsOf(tabs)
  {}

  /// A tab projected by the server keeps the focus of the session right exactly when
  /// it does not lose it in front or take it behind.
  lemma ProjectKeeps(s: Spaces, holders: set<HostId>, i: nat, id: int, deps: Deps, remote: T.RemoteTab, a: Arrival)
    requires GlobalFocus(s, holders) && EveryOwn(s) && Possible(s, Project(i, id, deps, remote, a))
    ensures Focused(After(Live(s, holders), Project(i, id, deps, remote, a))) <==>
              !Astray(s, Project(i, id, deps, remote, a))
  {
    hide GlobalFocus;
    hide EveryOwn;
    hide Own;
    hide FocusedHost;
    hide AllHosts;
    hide FrontAstray;
    hide BehindAstray;
    hide ArrivalHosts;
    hide ArrivalCalls;
    hide Arrives;
    hide OutcomeOf;
    hide PanesAfter;
    hide ActivePlace;
    hide ProjectedPlace;
    hide WithTab;
    hide WithTabs;
    hide T.ProjectTab;
    hide T.ProjectOn;
    var at := ProjectedPlace(s, i, id).value;
    var p := PanesAt(s, at);
    var tab := T.ProjectOn(TabAt(s, at), remote, OutcomeOf(p, a));
    ProjectedHere(s, i, id, remote, OutcomeOf(p, a));
    ProjectedTabLaw(TabAt(s, at), remote, a);
    ActiveOwn(s, at);
    PanesHosts(s, at);
    ArrivalKeepsOwn(p, deps, a);
    TabChanged(s, holders, at, tab, ArrivalHosts(a));
    if ActivePlace(s) == Some(at) {
      HolderIsFocused(s, holders, at);
      ArrivalInFront(p, deps, a, holders);
      FocusIsHolder(WithTab(s, at, tab), FocusedHost(tab.panes), ArrivalCalls(p, a, holders));
    } else {
      HolderElsewhere(s, holders, at);
      ArrivalBehind(p, deps, a, holders);
      FocusIsHolder(WithTab(s, at, tab), holders, ArrivalCalls(p, a, holders));
    }
  }

  lemma ProjectedHere(s: Spaces, i: nat, id: int, remote: T.RemoteTab, o: T.Outcome)
    requires ProjectedPlace(s, i, id).Some?
    ensures var at := ProjectedPlace(s, i, id).value;
            WithTabs(s, i, T.ProjectTab(s.spaces[i].tabs, id, remote, o).0) ==
              WithTab(s, at, T.ProjectOn(TabAt(s, at), remote, o))
  {
    hide IndexOfTab;
    hide T.ProjectOn;
  }

  /// No host of a tab that is not in front holds the focus.
  lemma HolderElsewhere(s: Spaces, holders: set<HostId>, at: (nat, nat))
    requires GlobalFocus(s, holders) && ActivePlace(s) != Some(at)
    requires at.0 < |s.spaces| && at.1 < |s.spaces[at.0].tabs.tabs|
    ensures holders !! PanesAt(s, at).hosts.Values && holders <= AllHosts(s)
  {
    var a := IndexOfSpace(s.spaces, s.active).value;
    var t := s.spaces[a].tabs;
    SpacesApart(s, a, at.0);
    CurrentIsOwn(t);
    OwnHosts(s, a);
    TabHosts(s.spaces[at.0].tabs.tabs, at.1);
    hide SpacesOk;
    hide IndexOfSpace;
    hide IndexOfTab;
    hide HostsOf;
    hide AllHosts;
    if a == at.0 && ActiveTab(t).Some? {
      var j := IndexOfTab(t.tabs, t.active).value;
      assert t.tabs[j].panes.hosts.Values !! t.tabs[at.1].panes.hosts.Values by {
        assert DisjointHosts(t.tabs);
      }
    }
  }

  /// One tab replaced, with no host but new ones added: the focused host of the tab
  /// is the rightful holder if it is in front, and else the holder stays who it was.
  lemma TabChanged(s: Spaces, holders: set<HostId>, at: (nat, nat), tab: Tab, made: set<HostId>)
    requires GlobalFocus(s, holders) && made !! AllHosts(s)
    requires at.0 < |s.spaces| && at.1 < |s.spaces[at.0].tabs.tabs| && tab.id == TabAt(s, at).id
    requires tab.panes.hosts.Values <= PanesAt(s, at).hosts.Values + made
    ensures GlobalFocus(WithTab(s, at, tab), if ActivePlace(s) == Some(at) then FocusedHost(tab.panes) else holders)
  {
    var (i, j) := at;
    var t := s.spaces[i].tabs;
    var t' := t.(tabs := t.tabs[j := tab]);
    var holders' := if ActivePlace(s) == Some(at) then FocusedHost(tab.panes) else holders;
    GlobalIsLocal(s, holders, i);
    OwnHosts(s, i);
    TabInTabs(t, j, tab, made);
    HandsOverTab(s, holders, at, tab);
    hide HostsOf;
    hide AllHosts;
    hide ActivePlace;
    hide CurrentHost;
    hide TabsOk;
    hide DisjointHosts;
    hide HandedOver;
    forall n | 0 <= n < |s.spaces| && n != i ensures HostsOf(t'.tabs) !! HostsOf(s.spaces[n].tabs.tabs) {
      OwnHosts(s, n);
      if i < n { assert HostsOf(t.tabs) !! HostsOf(s.spaces[n].tabs.tabs); }
      else { assert HostsOf(s.spaces[n].tabs.tabs) !! HostsOf(t.tabs); }
    }
    hide GlobalFocus;
    hide FocusedHost;
    TabOperationKeepsGlobalFocus(s, holders, i, t', holders');
  }

  /// Within its Space the focus is handed over, or left alone.
  lemma HandsOverTab(s: Spaces, holders: set<HostId>, at: (nat, nat), tab: Tab)
    requires GlobalFocus(s, holders) && at.0 < |s.spaces| && at.1 < |s.spaces[at.0].tabs.tabs|
             && tab.id == TabAt(s, at).id
    ensures var t := s.spaces[at.0].tabs;
            HandedOver(t, holders, t.(tabs := t.tabs[at.1 := tab]),
                       if ActivePlace(s) == Some(at) then FocusedHost(tab.panes) else holders)
  {
    var (i, j) := at;
    var t := s.spaces[i].tabs;
    var t' := t.(tabs := t.tabs[j := tab]);
    var a := IndexOfSpace(s.spaces, s.active).value;
    GlobalIsLocal(s, holders, i);
    SpacesApart(s, a, i);
    CurrentIsOwn(t);
    assert Ids(t'.tabs) == Ids(t.tabs);
    SameIndexOfTab(t.tabs, t'.tabs, t.active);
    hide Ids;
    hide HostsOf;
    hide IndexOfTab;
    hide DisjointHosts;
    hide SpacesOk;
    hide FocusReady;
    hide FocusedHost;
    if ActivePlace(s) == Some(at) {
      assert holders == CurrentHost(t);
      assert CurrentHost(t') == FocusedHost(tab.panes);
    } else {
      assert Holder(t') == Holder(t);
    }
    hide IndexOfSpace;
  }

  lemma TabInTabs(t: Tabs, j: nat, tab: Tab, made: set<HostId>)
    requires TabsOk(t) && DisjointHosts(t.tabs) && made !! HostsOf(t.tabs)
    requires j < |t.tabs| && tab.id == t.tabs[j].id && tab.panes.hosts.Values <= t.tabs[j].panes.hosts.Values + made
    ensures var t' := t.(tabs := t.tabs[j := tab]);
            && TabsOk(t') && DisjointHosts(t'.tabs) && HostsOf(t'.tabs) <= HostsOf(t.tabs) + made
  {
    var t' := t.(tabs := t.tabs[j := tab]);
    assert Ids(t'.tabs) == Ids(t.tabs);
    SameIdsTabsOk(t, t');
    HostsWithTab(t.tabs, j, tab, made);
    hide TabsOk;
    hide DisjointHosts;
    hide HostsOf;
    hide Ids;
  }

  lemma SameIdsTabsOk(t: Tabs, t': Tabs)
    requires TabsOk(t) && Ids(t'.tabs) == Ids(t.tabs) && t'.next == t.next && t'.active == t.active
    ensures TabsOk(t')
  {
    assert |t'.tabs| == |Ids(t'.tabs)| == |t.tabs|;
    forall i | 0 <= i < |t'.tabs| ensures 0 <= t'.tabs[i].id < t'.next {
      assert t'.tabs[i].id == Ids(t'.tabs)[i] == Ids(t.tabs)[i] == t.tabs[i].id;
    }
    hide Ids;
    hide Distinct;
  }

  /// One tab's hosts replaced by some of them and new ones.
  lemma HostsWithTab(tabs: seq<Tab>, j: nat, tab: Tab, made: set<HostId>)
    requires DisjointHosts(tabs) && j < |tabs| && made !! HostsOf(tabs)
    requires tab.panes.hosts.Values <= tabs[j].panes.hosts.Values + made
    ensures var tabs' := tabs[j := tab];
            DisjointHosts(tabs') && HostsOf(tabs') <= HostsOf(tabs) + made
  {
    var tabs' := tabs[j := tab];
    forall n | 0 <= n < |tabs|
      ensures tabs[n].panes.hosts.Values <= HostsOf(tabs)
      ensures tabs'[n].panes.hosts.Values <= tabs[n].panes.hosts.Values + (if n == j then made else {})
    {
      TabHosts(tabs, n);
    }
    forall h | h in HostsOf(tabs') ensures h in HostsOf(tabs) + made {
      var n :| 0 <= n < |tabs'| && h in tabs'[n].panes.hosts.Values;
      assert h in tabs[n].panes.hosts.Values + made;
    }
    hide HostsOf;
    forall a, b | 0 <= a < b < |tabs'| ensures tabs'[a].panes.hosts.Values !! tabs'[b].panes.hosts.Values {
      assert tabs[a].panes.hosts.Values !! tabs[b].panes.hosts.Values;
      assert made !! tabs[a].panes.hosts.Values && made !! tabs[b].panes.hosts.Values;
    }
  }

  lemma SameIndexOfTab(tabs: seq<Tab>, tabs': seq<Tab>, id: int)
    requires Ids(tabs') == Ids(tabs)
    ensures IndexOfTab(tabs', id) == IndexOfTab(tabs, id)
  {
    hide IndexOfTab;
    if id in Ids(tabs) {
      assert |tabs'| == |Ids(tabs')| == |tabs|;
      var j, k := IndexOfTab(tabs, id).value, IndexOfTab(tabs', id).value;
      assert tabs'[k].id == Ids(tabs')[k] == Ids(tabs)[k] == tabs[k].id;
      assert tabs[j].id == Ids(tabs)[j] == Ids(tabs')[j] == tabs'[j].id;
    }
  }

  // ---------------------------------------------------------------------------
  // The panes of every tab

  lemma TabOpOwn(t: Tabs, op: TabOp)
    requires OwnTabs(t.tabs) && Applicable(t, op) && (op.OpAdd? && op.created.Some? ==> Own(op.created.value))
    ensures OwnTabs(TabResult(t, op).tabs)
  {
    NoPanesOwn();
    hide Own;
    hide SameIds;
    hide IndexOfTab;
    hide Ids;
    match op
    case OpAdd(_, _) =>
    case OpAddProjected =>
    case OpActivate(_) =>
    case OpClose(_) =>
    case OpNext =>
    case OpPrevious =>
    case OpMove(_) =>
    case OpReorder(ids) => ReorderOwn(t, ids);
  }

  lemma ReorderOwn(t: Tabs, ids: seq<int>)
    requires OwnTabs(t.tabs)
    ensures OwnTabs(Reorder(t, ids).0.tabs)
  {
    hide Own;
    hide Ids;
  }

  lemma WithTabsOwn(s: Spaces, i: nat, t: Tabs)
    requires EveryOwn(s) && i < |s.spaces| && OwnTabs(t.tabs)
    ensures EveryOwn(WithTabs(s, i, t))
  {
    hide OwnTabs;
  }

  lemma WithTabOwn(s: Spaces, at: (nat, nat), tab: Tab)
    requires EveryOwn(s) && at.0 < |s.spaces| && at.1 < |s.spaces[at.0].tabs.tabs| && Own(tab.panes)
    ensures EveryOwn(WithTab(s, at, tab))
  {
    hide Own;
    assert OwnTabs(s.spaces[at.0].tabs.tabs);
    var t := s.spaces[at.0].tabs;
    WithTabsOwn(s, at.0, t.(tabs := t.tabs[at.1 := tab]));
  }

  lemma ProjectOwn(s: Spaces, i: nat, id: int, deps: Deps, remote: T.RemoteTab, a: Arrival)
    requires EveryOwn(s) && Possible(s, Project(i, id, deps, remote, a))
    ensures var p := PanesAt(s, ProjectedPlace(s, i, id).value);
            EveryOwn(WithTabs(s, i, T.ProjectTab(s.spaces[i].tabs, id, remote, OutcomeOf(p, a)).0))
  {
    var at := ProjectedPlace(s, i, id).value;
    var p := PanesAt(s, at);
    hide EveryOwn;
    hide AllHosts;
    hide ProjectedPlace;
    hide OutcomeOf;
    hide ArrivalHosts;
    hide Arrives;
    hide Own;
    ProjectedHere(s, i, id, remote, OutcomeOf(p, a));
    ProjectedTabLaw(TabAt(s, at), remote, a);
    ActiveOwn(s, at);
    PanesHosts(s, at);
    ArrivalKeepsOwn(p, deps, a);
    WithTabOwn(s, at, T.ProjectOn(TabAt(s, at), remote, OutcomeOf(p, a)));
  }

  lemma ActivateOwn(s: Spaces, id: int)
    requires EveryOwn(s)
    ensures EveryOwn(ActivateSpace(s, id).0)
  {
    hide OwnTabs;
    forall i | 0 <= i < |s.spaces| ensures OwnTabs(ActivateSpace(s, id).0.spaces[i].tabs.tabs) {
      SameHosts(s, id, i);
    }
  }

  lemma CloseOwn(s: Spaces, id: int)
    requires EveryOwn(s)
    ensures EveryOwn(CloseSpace(s, id).0)
  {
    hide OwnTabs;
    hide ActivateSpace;
    hide ActiveTab;
    forall j | 0 <= j < |s.spaces| ensures EveryOwn(ActivateSpace(s, s.spaces[j].id).0) {
      ActivateOwn(s, s.spaces[j].id);
    }
  }

  lemma {:induction false} SurvivorsOwn(deps: Deps, snaps: seq<TabSnapshot>, factory: int -> LeafId -> HostMaker)
    requires CheckedTabs(snaps) && forall t :: LeavesApart(factory(t))
    ensures OwnTabs(Survivors(deps, snaps, factory))
  {
    hide Own;
    hide Checked;
    hide LeavesApart;
    hide RestoreLayout;
    if snaps != [] {
      var last := snaps[|snaps| - 1];
      SurvivorsOwn(deps, snaps[..|snaps| - 1], factory);
      if RestoreTab(deps, last, factory(last.id)).Some? {
        RestoredOwn(deps, last.layout, factory(last.id));
      }
    }
  }

  lemma {:induction false} SurvivingOwn(deps: Deps, snaps: seq<SpaceSnapshot>, factory: Factory)
    requires forall i :: 0 <= i < |snaps| ==> CheckedTabs(snaps[i].tabs)
    requires forall s, t :: LeavesApart(factory(s)(t))
    ensures forall i :: 0 <= i < |SurvivingSpaces(deps, snaps, factory)| ==>
              OwnTabs(SurvivingSpaces(deps, snaps, factory)[i].tabs.tabs)
  {
    hide OwnTabs;
    hide CheckedTabs;
    hide LeavesApart;
    if snaps != [] {
      var last := snaps[|snaps| - 1];
      SurvivingOwn(deps, snaps[..|snaps| - 1], factory);
      if RestoreSpace(deps, last, factory(last.id)).Some? {
        SurvivorsOwn(deps, last.tabs, factory(last.id));
      }
    }
  }

  lemma RestoreOwn(s: Spaces, deps: Deps, snaps: seq<SpaceSnapshot>, active: int, next: int, factory: Factory)
    requires forall i :: 0 <= i < |snaps| ==> CheckedTabs(snaps[i].tabs)
    requires forall s, t :: LeavesApart(factory(s)(t))
    ensures var r := RestoreSpaces(s, deps, snaps, active, next, factory); r.Restored? ==> EveryOwn(r.session)
  {
    hide OwnTabs;
    hide SurvivingSpaces;
    hide ActivateSpace;
    SurvivingOwn(deps, snaps, factory);
    var candidates := SurvivingSpaces(deps, snaps, factory);
    if |candidates| > 0 {
      var top := MaxOf(SpaceSnapIds(snaps)) + 1;
      ActivateOwn(Spaces(candidates, -1, if top <= LIMIT then Clamp(next, top, LIMIT) else LIMIT),
                  ChosenSpace(candidates, active));
    }
  }

  /// Every operation leaves the panes of every tab sound, also one after which the
  /// wrong host holds the focus.
  lemma StepKeepsOwn(l: Live, op: SessionOp)
    requires EveryOwn(l.session) && Possible(l.session, op)
    ensures EveryOwn(After(l, op).session)
  {
    var s := l.session;
    hide OwnTabs;
    hide CloseSpace;
    hide ActivateSpace;
    hide TabResult;
    hide TabFocus;
    hide PaneResult;
    hide PaneCalls;
    match op
    case InSpace(i, op) =>
      TabOpOwn(s.spaces[i].tabs, op);
      WithTabsOwn(s, i, TabResult(s.spaces[i].tabs, op));
    case InPanes(deps, op) =>
      var at := ActivePlace(s).value;
      ActiveOwn(s, at);
      PanesHosts(s, at);
      PaneOpKeepsOwn(PanesAt(s, at), deps, op);
      WithTabOwn(s, at, TabAt(s, at).(panes := PaneResult(PanesAt(s, at), deps, op)));
    case Project(i, tab, deps, remote, a) => ProjectOwn(s, i, tab, deps, remote, a);
    case Create(_, _) => NoTabsOwn();
    case Enter(id) => ActivateOwn(s, id);
    case Rename(_, _) =>
    case SetRoot(_, _) =>
    case Close(id) => CloseOwn(s, id);
    case Restore(deps, snaps, active, next, factory) => RestoreOwn(s, deps, snaps, active, next, factory);
  }

  lemma NoTabsOwn()
    ensures OwnTabs([])
  {}

  // ---------------------------------------------------------------------------
  // Runs

  /// Every operation keeps the focus of the session right exactly when it is not
  /// astray.
  lemma StepKeepsFocus(l: Live, op: SessionOp)
    requires Focused(l) && EveryOwn(l.session) && Possible(l.session, op)
    ensures EveryOwn(After(l, op).session)
    ensures Focused(After(l, op)) <==> !Astray(l.session, op)
  {
    hide EveryOwn;
    hide GlobalFocus;
    hide TabResult;
    hide TabFocus;
    hide PaneResult;
    hide PaneCalls;
    hide OutOfStep;
    hide EnterFocus;
    hide CloseFocus;
    hide CloseSpace;
    hide ActivateSpace;
    hide RestoreSpaces;
    hide AllHosts;
    StepKeepsOwn(l, op);
    match op
    case InSpace(i, op) => InSpaceKeeps(l.session, l.holders, i, op);
    case InPanes(deps, op) => InPanesKeeps(l.session, l.holders, deps, op);
    case Project(i, tab, deps, remote, a) => ProjectKeeps(l.session, l.holders, i, tab, deps, remote, a);
    case Create(name, root) => CreateKeepsGlobalFocus(l.session, l.holders, name, root);
    case Enter(id) => EnterKeeps(l.session, l.holders, id);
    case Rename(id, name) => AlikeKeeps(l.session, RenameSpace(l.session, id, name), l.holders);
    case SetRoot(id, root) => AlikeKeeps(l.session, SetSpaceRoot(l.session, id, root), l.holders);
    case Close(id) => CloseKeeps(l.session, l.holders, id);
    case Restore(deps, snaps, active, next, factory) =>
      RestoreKeeps(l.session, l.holders, deps, snaps, active, next, factory);
  }

  /// States of a run, starting from the one empty Space a session begins with.
  ghost predicate Run(root: string, states: seq<Live>, ops: seq<SessionOp>) {
    && |states| == |ops| + 1 && states[0] == Live(FirstSpaces(root), {})
    && forall k :: 0 <= k < |ops| ==> Possible(states[k].session, ops[k]) && states[k + 1] == After(states[k], ops[k])
  }

  /// In every state of a run, whatever happened before, the panes of every tab are
  /// sound and no host object is on two leaves.
  lemma {:induction false} RunKeepsOwn(root: string, states: seq<Live>, ops: seq<SessionOp>, k: nat)
    requires Run(root, states, ops) && k < |states|
    ensures EveryOwn(states[k].session)
  {
    hide After;
    hide Possible;
    if k == 0 {
      NoTabsOwn();
      hide OwnTabs;
    } else {
      hide EveryOwn;
      RunKeepsOwn(root, states, ops, k - 1);
      StepKeepsOwn(states[k - 1], ops[k - 1]);
    }
  }

  /// Throughout any run up to the first operation that is astray, the live hosts
  /// holding focus are exactly the focused host of the active tab of the active
  /// Space, or none if there is none; identifiers stay distinct and bounded.
  lemma {:induction false} RunKeepsGlobalFocus(root: string, states: seq<Live>, ops: seq<SessionOp>, k: nat)
    requires Run(root, states, ops) && k < |states|
    requires forall i :: 0 <= i < k - 1 ==> !Astray(states[i].session, ops[i])
    ensures GlobalFocus(states[k].session, states[k].holders) <==>
              (k > 0 ==> !Astray(states[k - 1].session, ops[k - 1]))
  {
    hide After;
    hide GlobalFocus;
    hide EveryOwn;
    hide Astray;
    hide Possible;
    if k == 0 {
      FirstIsFocused(root);
    } else {
      RunKeepsGlobalFocus(root, states, ops, k - 1);
      RunKeepsOwn(root, states, ops, k - 1);
      StepKeepsFocus(states[k - 1], ops[k - 1]);
    }
  }

  lemma FirstIsFocused(root: string)
    ensures GlobalFocus(FirstSpaces(root), {})
  {
    NoTabsOk();
    hide HostsOf;
    hide DisjointHosts;
    assert SpaceIds(FirstSpaces(root).spaces)[0] == 0;
  }
}
