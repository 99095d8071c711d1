/** The focus calls pane operations make on hosts, in the tab the user is in. */
module PaneFocus {
  import opened Identifiers
  import opened SplitTrees
  import opened PaneNames
  import opened PaneModel
  import opened PaneInvariants
  import opened PaneReconcile
  import opened PaneSound
  import opened TabModel

  /// The operations of the user on the panes of a tab.
  datatype PaneOp =
    | SplitOff(dir: Direction, launch: Launch, maker: HostMaker)
    | CloseLeafOf(leaf: LeafId)
    | Restart(leaf: LeafId, maker: HostMaker)
    | SwapNext
    | Zooming
    | FocusOn(leaf: LeafId)
    | OpenPreview(owner: LeafId, ratio: real, path: string, maker: HostMaker)
    | DropPreview

  function PaneResult(p: Panes, deps: Deps, op: PaneOp): Panes {
    match op
    case SplitOff(dir, launch, m) => SplitPane(p, deps, dir, launch, m).0
    case CloseLeafOf(id) => ClosePane(p, deps, id).0
    case Restart(id, m) => RestartPane(p, deps, id, m).0
    case SwapNext => SwapWithNext(p, deps).0
    case Zooming => ToggleZoom(p)
    case FocusOn(id) => UpdateFocus(p, id)
    case OpenPreview(owner, ratio, path, m) => ShowPreview(p, deps, owner, ratio, path, m).0
    case DropPreview => HidePreview(p, deps)
  }

  // ---------------------------------------------------------------------------
  // The calls

  /// The host of a leaf, if it has one.
  function HostAt(p: Panes, id: LeafId): set<HostId> {
    if id in p.hosts then {p.hosts[id]} else {}
  }

  /// Calls of an explicit focus move: lost to the old host, gained to the new one.
  ghost function MoveCalls(p: Panes, holders: set<HostId>, id: LeafId): set<HostId> {
    if p.tree.focused == id then holders else holders - HostAt(p, p.tree.focused) + HostAt(p, id)
  }

  /// The panes of a split when the new host is made and the focus not yet moved.
  ghost function SplitBefore(p: Panes, deps: Deps, dir: Direction, launch: Launch, m: HostMaker): Panes {
    var (tree, leaf) := SplitLeaf(p.tree, p.tree.focused, dir);
    CreateHost(p.(tree := tree), deps, leaf, Completed(launch, deps), false, false, m).0
  }

  ghost function SplitCalls(p: Panes, deps: Deps, dir: Direction, launch: Launch, m: HostMaker,
                            holders: set<HostId>): set<HostId> {
    var leaf := SplitPane(p, deps, dir, launch, m).1;
    if leaf == INVALID_LEAF then holders else MoveCalls(SplitBefore(p, deps, dir, launch, m), holders, leaf)
  }

  /// Calls of a close: its host holds nothing any more, and a pane that the focus
  /// falls to gains it.
  ghost function CloseCalls(p: Panes, deps: Deps, id: LeafId, holders: set<HostId>): set<HostId> {
    var (q, ok) := ClosePane(p, deps, id);
    if !ok then holders
    else holders - HostAt(p, id) + (if q.tree.focused != p.tree.focused then HostAt(q, q.tree.focused) else {})
  }

  /// A preview that is shown already, or whose owner has no host, is not split off.
  predicate Opens(p: Panes, deps: Deps, owner: LeafId) {
    deps.allowLocalLayout && !(p.previewLeaf != INVALID_LEAF && p.previewLeaf in p.hosts) && owner in p.hosts
  }

  /// The panes a preview is split off from: the tree's focus is put on the owner
  /// first, without a call.
  function OnOwnerFirst(p: Panes, owner: LeafId): Panes {
    PreviewChecked(p).(tree := SetFocused(p.tree, owner))
  }

  function PreviewStart(p: Panes, owner: LeafId, path: string): Launch {
    PreviewLaunch(path, if owner in p.paneIds then p.paneIds[owner] else "")
  }

  ghost function OpenCalls(p: Panes, deps: Deps, owner: LeafId, path: string, m: HostMaker,
                           holders: set<HostId>): set<HostId> {
    if !Opens(p, deps, owner) then holders
    else
      var q := OnOwnerFirst(p, owner);
      var launch := PreviewStart(p, owner, path);
      var (p1, leaf) := SplitPane(q, deps, Horizontal, launch, m);
      var held := SplitCalls(q, deps, Horizontal, launch, m, holders);
      if leaf == INVALID_LEAF then MoveCalls(p1, held, if p.tree.focused == INVALID_LEAF then owner else p.tree.focused)
      else MoveCalls(p1, held, owner)
  }

  ghost function DropCalls(p: Panes, deps: Deps, holders: set<HostId>): set<HostId> {
    if !deps.allowLocalLayout || p.previewLeaf == INVALID_LEAF then holders
    else
      var p0 := p.(previewLeaf := INVALID_LEAF, previewOwner := INVALID_LEAF);
      var p1 := ClosePane(p0, deps, p.previewLeaf).0;
      var held := CloseCalls(p0, deps, p.previewLeaf, holders);
      if p.previewOwner != INVALID_LEAF && p.previewOwner in p1.hosts then MoveCalls(p1, held, p.previewOwner) else held
  }

  /// The hosts holding focus after the calls an operation makes; a host that is
  /// shut down holds nothing, and one that is made holds nothing yet.
  ghost function PaneCalls(p: Panes, deps: Deps, op: PaneOp, holders: set<HostId>): set<HostId> {
    match op
    case SplitOff(dir, launch, m) => SplitCalls(p, deps, dir, launch, m, holders)
    case CloseLeafOf(id) => CloseCalls(p, deps, id, holders)
    case Restart(id, m) => if id in p.hosts && id in p.launches then holders - HostAt(p, id) else holders
    case SwapNext => holders
    case Zooming => holders
    case FocusOn(id) => MoveCalls(p, holders, id)
    case OpenPreview(owner, ratio, path, m) => OpenCalls(p, deps, owner, path, m, holders)
    case DropPreview => DropCalls(p, deps, holders)
  }

  function MakerHosts(m: HostMaker): set<HostId> {
    {m.placeholder} + (if m.provider.Some? then {m.provider.value} else {})
  }

  /// The host objects an operation may make.
  function NewPaneHosts(op: PaneOp): set<HostId> {
    if op.SplitOff? || op.Restart? || op.OpenPreview? then MakerHosts(op.maker) else {}
  }

  /// The tab's hosts end with exactly its focused one holding focus.
  ghost predicate PanesHandOver(p: Panes, holders: set<HostId>, q: Panes, holders': set<HostId>) {
    holders' == holders - p.hosts.Values + FocusedHost(q)
  }

  /// The operations whose calls do not follow the focus: a swap moves it without any
  /// call; a restart of the focused pane makes a host that is told nothing; a move to
  /// a leaf that is not there still takes the focus away; and a preview opened for
  /// another pane than the focused one leaves both holding the focus.
  ghost predicate OutOfStep(p: Panes, deps: Deps, op: PaneOp) {
    match op
    case SwapNext =>
      && deps.allowLocalLayout && |TreeLeaves(p.tree)| >= 2
      && (p.tree.focused in p.hosts || NextLeafAfter(p.tree, p.tree.focused) in p.hosts)
    case Restart(id, m) =>
      && id == p.tree.focused && id in p.hosts && id in p.launches
      && StartsAs(deps, p.launches[id], false, true, m).Some?
    case FocusOn(id) => id !in LeafSet(p.tree) && p.tree.focused in p.hosts
    case OpenPreview(owner, ratio, path, m) =>
      && Opens(p, deps, owner) && p.tree.focused in p.hosts && p.tree.focused != owner
      && Allocate(p.tree.nextId).Some?
      && StartsAs(deps, Completed(PreviewStart(p, owner, path), deps), false, false, m).Some?
    case _ => false
  }

  /// Sound panes in which every host object is on one leaf.
  ghost predicate Own(p: Panes) {
    Sound(p) && Injective(p.hosts)
  }

  /// This tab is the one with the focus.
  ghost predicate InFocus(p: Panes, holders: set<HostId>) {
    Own(p) && holders * p.hosts.Values == FocusedHost(p)
  }

  // ---------------------------------------------------------------------------
  // Who holds the focus

  lemma FocusedHostLaw(p: Panes)
    ensures FocusedHost(p) == HostAt(p, p.tree.focused) <= p.hosts.Values
  {}

  /// Of these hosts only some hold the focus.
  lemma SomeHold(holders: set<HostId>, hosts: set<HostId>, held: set<HostId>)
    requires holders * hosts == held
    ensures holders - held == holders - hosts && holders == holders - hosts + held
  {}

  lemma HostsDiffer(p: Panes, a: LeafId, b: LeafId)
    requires Injective(p.hosts) && a in p.hosts && b in p.hosts && a != b
    ensures p.hosts[a] != p.hosts[b]
  {}

  lemma OthersHoldNothing(p: Panes, holders: set<HostId>, id: LeafId)
    requires InFocus(p, holders) && id != p.tree.focused
    ensures holders - HostAt(p, id) == holders
  {
    if id in p.hosts {
      if p.tree.focused in p.hosts {
        HostsDiffer(p, id, p.tree.focused);
      }
      hide Sound;
      hide Injective;
      assert p.hosts[id] in holders <==> p.hosts[id] in holders * p.hosts.Values;
    }
  }

  lemma MoveHandsOver(p: Panes, holders: set<HostId>, id: LeafId)
    requires InFocus(p, holders)
    ensures PanesHandOver(p, holders, UpdateFocus(p, id), MoveCalls(p, holders, id)) <==>
              !(id !in LeafSet(p.tree) && p.tree.focused in p.hosts)
  {
    HostedOnLeaf(p, id);
    FocusedHostLaw(p);
    SomeHold(holders, p.hosts.Values, FocusedHost(p));
    hide Sound;
    hide Injective;
    MadeFocused(p, id);
    if id !in LeafSet(p.tree) && p.tree.focused in p.hosts {
      assert p.hosts[p.tree.focused] !in MoveCalls(p, holders, id);
    }
    hide UpdateFocus;
    hide LeafSet;
  }

  lemma HostedOnLeaf(p: Panes, id: LeafId)
    requires Sound(p)
    ensures id in p.hosts ==> id in LeafSet(p.tree) && id in p.launches && id != INVALID_LEAF && p.tree != EMPTY
  {
    if id in p.hosts {
      OwnerIsLeaf(p, id);
      assert id in p.launches.Keys;
      hide Backed;
    }
  }

  /// A focus move arrives at a leaf of the tree, and changes no host.
  lemma MadeFocused(p: Panes, leaf: LeafId)
    ensures UpdateFocus(p, leaf).hosts == p.hosts
    ensures UpdateFocus(p, leaf).tree.focused == if leaf in LeafSet(p.tree) then leaf else p.tree.focused
  {
    assert UpdateFocus(p, leaf).tree == if p.tree.focused == leaf then p.tree else SetFocused(p.tree, leaf);
    hide UpdateFocus;
  }

  lemma SwapHandsOver(p: Panes, deps: Deps, holders: set<HostId>)
    requires InFocus(p, holders)
    ensures PanesHandOver(p, holders, SwapWithNext(p, deps).0, holders) <==> !OutOfStep(p, deps, SwapNext)
  {
    SwapMoves(p, deps);
    FocusedHostLaw(p);
    SomeHold(holders, p.hosts.Values, FocusedHost(p));
    var (q, ok) := SwapWithNext(p, deps);
    FocusedHostLaw(q);
    if ok && p.tree.focused in p.hosts && q.tree.focused in p.hosts {
      HostsDiffer(p, p.tree.focused, q.tree.focused);
    }
    hide SwapWithNext;
    hide Sound;
    hide Injective;
    hide NextLeafAfter;
    hide TreeLeaves;
    TwoHoldings(holders, p.hosts.Values, FocusedHost(p), FocusedHost(q));
  }

  /// Handing the focus over changes nothing exactly when it stays where it is.
  lemma TwoHoldings(holders: set<HostId>, hosts: set<HostId>, a: set<HostId>, b: set<HostId>)
    requires holders * hosts == a && b <= hosts
    ensures holders == holders - hosts + b <==> a == b
  {
    if holders == holders - hosts + b {
      assert (holders - hosts + b) * hosts == b;
    }
  }

  lemma SwapMoves(p: Panes, deps: Deps)
    requires Sound(p)
    ensures var (q, ok) := SwapWithNext(p, deps);
            && q.hosts == p.hosts && (!ok ==> q == p)
            && (ok <==> deps.allowLocalLayout && |TreeLeaves(p.tree)| >= 2)
            && (ok ==> q.tree.focused == NextLeafAfter(p.tree, p.tree.focused) && q.tree.focused != p.tree.focused)
  {
    if p.tree != EMPTY {
      NextLeafLaw(p.tree);
      SwapLeavesLaw(p.tree, p.tree.focused, NextLeafAfter(p.tree, p.tree.focused));
    } else {
      assert TreeLeaves(p.tree) == [];
    }
    hide Backed;
    hide NamedIds;
    hide Injective;
    hide NextLeafAfter;
  }

  lemma RestartHandsOver(p: Panes, deps: Deps, id: LeafId, m: HostMaker, holders: set<HostId>)
    requires InFocus(p, holders) && MakerHosts(m) !! holders
    ensures PanesHandOver(p, holders, RestartPane(p, deps, id, m).0, PaneCalls(p, deps, Restart(id, m), holders)) <==>
              !OutOfStep(p, deps, Restart(id, m))
  {
    RestartHosts(p, deps, id, m);
    FocusedHostLaw(p);
    SomeHold(holders, p.hosts.Values, FocusedHost(p));
    var (q, ok) := RestartPane(p, deps, id, m);
    hide RestartPane;
    hide StartsAs;
    if id != p.tree.focused {
      OthersHoldNothing(p, holders, id);
    }
    hide Sound;
    hide Injective;
  }

  lemma RestartHosts(p: Panes, deps: Deps, id: LeafId, m: HostMaker)
    requires Sound(p)
    ensures var (q, ok) := RestartPane(p, deps, id, m);
            && q.tree == p.tree && (id in p.hosts ==> id in p.launches)
            && (id !in p.hosts ==> !ok && q == p)
            && (ok <==> id in p.hosts && StartsAs(deps, p.launches[id], false, true, m).Some?)
            && (id in p.hosts && !ok ==> q.hosts == p.hosts - {id})
            && (ok ==> id in q.hosts && q.hosts[id] in MakerHosts(m) && q.hosts == p.hosts[id := q.hosts[id]])
  {
    HostedOnLeaf(p, id);
    hide Sound;
    if id in p.hosts {
      StartsAsMade(deps, p.launches[id], false, true, m);
      var p0 := p.(hosts := p.hosts - {id});
      CreateOnlyTables(p0, deps, id, p.launches[id], false, true, m);
      CreatedHosts(p0, deps, id, p.launches[id], false, true, m);
      hide StartsAs;
      hide CreateHost;
      hide LeafSet;
      var made := StartsAs(deps, p.launches[id], false, true, m);
      if made.Some? {
        PutAgain(p.hosts, id, made.value);
      }
    }
  }

  lemma PutAgain(hosts: map<LeafId, HostId>, id: LeafId, h: HostId)
    ensures (hosts - {id})[id := h] == hosts[id := h]
  {}

  lemma CreatedHosts(p: Panes, deps: Deps, id: LeafId, launch: Launch, primary: bool, preserve: bool, m: HostMaker)
    ensures var (q, ok) := CreateHost(p, deps, id, launch, primary, preserve, m);
            q.hosts == if ok then p.hosts[id := StartsAs(deps, launch, primary, preserve, m).value] else p.hosts
  {
    WithPaneIdOnly(p, id);
    hide StartsAs;
    hide WithPaneId;
  }

  lemma StartsAsMade(deps: Deps, launch: Launch, primary: bool, preserve: bool, m: HostMaker)
    ensures var h := StartsAs(deps, launch, primary, preserve, m);
            h.Some? ==> h.value == m.placeholder || m.provider == h
  {}

  lemma CloseHandsOver(p: Panes, deps: Deps, id: LeafId, holders: set<HostId>)
    requires InFocus(p, holders)
    ensures PanesHandOver(p, holders, ClosePane(p, deps, id).0, CloseCalls(p, deps, id, holders))
  {
    CloseHosts(p, deps, id);
    FocusedHostLaw(p);
    SomeHold(holders, p.hosts.Values, FocusedHost(p));
    var (q, ok) := ClosePane(p, deps, id);
    hide ClosePane;
    if id != p.tree.focused {
      OthersHoldNothing(p, holders, id);
    }
    hide Sound;
    hide Injective;
  }

  /// A close that removes the focused leaf moves the focus to another leaf.
  lemma CloseHosts(p: Panes, deps: Deps, id: LeafId)
    requires Sound(p)
    ensures var (q, ok) := ClosePane(p, deps, id);
            && (!ok ==> q == p)
            && (ok ==>
                  && id in p.hosts && q.hosts == p.hosts - {id}
                  && (id == p.tree.focused <==> q.tree.focused != p.tree.focused))
  {
    HostedOnLeaf(p, id);
    if deps.allowLocalLayout && |TreeLeaves(p.tree)| > 1 && id in p.hosts {
      assert WellFormed(p.tree);
      CloseLeafLaw(p.tree, id);
      LeavesLeft(p.tree, id);
    }
    hide Sound;
    hide CloseLeaf;
    hide WellFormed;
    hide LeafSet;
  }

  lemma LeavesLeft(t: SplitTree, id: LeafId)
    requires WellFormed(t) && CloseLeaf(t, id).1
    ensures CloseLeaf(t, id).0.focused != id
  {
    CloseLeafLaw(t, id);
    hide CloseLeaf;
  }

  lemma SplitHandsOver(p: Panes, deps: Deps, dir: Direction, launch: Launch, m: HostMaker, holders: set<HostId>)
    requires InFocus(p, holders)
    ensures PanesHandOver(p, holders, SplitPane(p, deps, dir, launch, m).0,
                          SplitCalls(p, deps, dir, launch, m, holders))
  {
    SplitHosts(p, deps, dir, launch, m);
    FocusedHostLaw(p);
    SomeHold(holders, p.hosts.Values, FocusedHost(p));
    hide SplitPane;
    hide SplitBefore;
    hide Sound;
    hide Injective;
  }

  /// A split that makes its host ends with the focus on the new leaf.
  lemma SplitHosts(p: Panes, deps: Deps, dir: Direction, launch: Launch, m: HostMaker)
    requires Sound(p)
    ensures var (q, leaf) := SplitPane(p, deps, dir, launch, m);
            var p1 := SplitBefore(p, deps, dir, launch, m);
            && (leaf != INVALID_LEAF <==>
                  deps.allowLocalLayout && p.tree != EMPTY && Allocate(p.tree.nextId).Some?
                  && StartsAs(deps, Completed(launch, deps), false, false, m).Some?)
            && (leaf == INVALID_LEAF ==> q.hosts == p.hosts && q.tree.focused == p.tree.focused)
            && (leaf != INVALID_LEAF ==>
                  && leaf !in p.hosts && leaf !in LeafSet(p.tree) && q.hosts == p1.hosts && q.tree.focused == leaf
                  && leaf in q.hosts && q.hosts[leaf] in MakerHosts(m) && q.hosts == p.hosts[leaf := q.hosts[leaf]]
                  && p1.tree.focused == p.tree.focused != leaf)
  {
    var (tree, leaf) := SplitLeaf(p.tree, p.tree.focused, dir);
    if p.tree != EMPTY {
      SplitLeafLaw(p.tree, p.tree.focused, dir);
      FocusOnLeaf(p);
    }
    HostedOnLeaf(p, leaf);
    CanSplitLeaf(p.tree, dir);
    hide Sound;
    hide WellFormed;
    if deps.allowLocalLayout && p.tree != EMPTY && leaf != INVALID_LEAF {
      SplitMakesHosts(p, deps, dir, launch, m);
    }
    hide StartsAs;
  }

  lemma FocusOnLeaf(p: Panes)
    requires Sound(p) && p.tree != EMPTY
    ensures p.tree.focused in LeafSet(p.tree) && p.tree.focused != INVALID_LEAF
  {
    hide Backed;
    hide Injective;
  }

  lemma CanSplitLeaf(t: SplitTree, dir: Direction)
    ensures SplitLeaf(t, t.focused, dir).1 != INVALID_LEAF <==> t.focused in LeafSet(t) && Allocate(t.nextId).Some?
  {}

  lemma SplitMakesHosts(p: Panes, deps: Deps, dir: Direction, launch: Launch, m: HostMaker)
    requires deps.allowLocalLayout && p.tree.focused != INVALID_LEAF
    requires var (tree, leaf) := SplitLeaf(p.tree, p.tree.focused, dir);
             && leaf != INVALID_LEAF && leaf !in p.hosts && leaf in LeafSet(tree)
             && tree.focused == p.tree.focused && CloseLeaf(tree, leaf).0.focused == p.tree.focused
    ensures var leaf := SplitLeaf(p.tree, p.tree.focused, dir).1;
            var made := StartsAs(deps, Completed(launch, deps), false, false, m);
            var (q, added) := SplitPane(p, deps, dir, launch, m);
            var p1 := SplitBefore(p, deps, dir, launch, m);
            && p1.tree.focused == p.tree.focused
            && (if made.Some? then
                added == leaf && q.hosts == p1.hosts == p.hosts[leaf := made.value] && q.tree.focused == leaf
                else added == INVALID_LEAF && q.hosts == p.hosts && q.tree.focused == p.tree.focused)
            && (made.Some? ==> made.value in MakerHosts(m))
  {
    var (tree, leaf) := SplitLeaf(p.tree, p.tree.focused, dir);
    var p0 := p.(tree := tree);
    var (p1, ok) := CreateHost(p0, deps, leaf, Completed(launch, deps), false, false, m);
    CreateOnlyTables(p0, deps, leaf, Completed(launch, deps), false, false, m);
    CreatedHosts(p0, deps, leaf, Completed(launch, deps), false, false, m);
    StartsAsMade(deps, Completed(launch, deps), false, false, m);
    hide SplitLeaf;
    hide LeafSet;
    hide StartsAs;
    hide CreateHost;
    hide Completed;
    hide CloseLeaf;
    hide UpdateFocus;
    if ok {
      assert SplitPane(p, deps, dir, launch, m) == (UpdateFocus(p1, leaf), leaf);
      MadeFocused(p1, leaf);
    } else {
      assert SplitPane(p, deps, dir, launch, m) == (p1.(tree := CloseLeaf(tree, leaf).0), INVALID_LEAF);
    }
    hide SplitPane;
  }

  lemma ZoomHandsOver(p: Panes, holders: set<HostId>)
    requires InFocus(p, holders)
    ensures PanesHandOver(p, holders, ToggleZoom(p), holders)
  {
    ZoomHosts(p);
    FocusedHostLaw(p);
    SomeHold(holders, p.hosts.Values, FocusedHost(p));
    hide ToggleZoom;
    hide Sound;
    hide Injective;
  }

  lemma ZoomHosts(p: Panes)
    ensures ToggleZoom(p).hosts == p.hosts && ToggleZoom(p).tree == p.tree
  {}

  // ---------------------------------------------------------------------------
  // The preview

  /// Whether a preview that is split off gets its host.
  ghost predicate Previews(p: Panes, deps: Deps, owner: LeafId, path: string, m: HostMaker) {
    Allocate(p.tree.nextId).Some?
      && StartsAs(deps, Completed(PreviewStart(p, owner, path), deps), false, false, m).Some?
  }

  lemma OwnerFirstSound(p: Panes, owner: LeafId)
    requires Sound(p) && owner in p.hosts
    ensures var q := OnOwnerFirst(p, owner);
            && Sound(q) && q.hosts == p.hosts && q.paneIds == p.paneIds && LeafSet(q.tree) == LeafSet(p.tree)
            && q.tree.focused == owner && q.tree.nextId == p.tree.nextId && q.tree != EMPTY
            && p.tree.focused in LeafSet(p.tree) && p.tree.focused != INVALID_LEAF
  {
    var p0 := PreviewChecked(p);
    assert p0.hosts == p.hosts && p0.paneIds == p.paneIds && p0.tree == p.tree;
    PreviewForgotten(p, p0);
    OwnerIsLeaf(p, owner);
    FocusOnLeaf(p);
    hide Sound;
    hide PreviewChecked;
    FocusedOwnerSound(p0, owner);
    assert SetFocused(p.tree, owner) == p.tree.(focused := owner);
    hide LeafSet;
    hide SetFocused;
  }

  lemma OpenUnfolds(p: Panes, deps: Deps, owner: LeafId, ratio: real, path: string, m: HostMaker)
    requires Opens(p, deps, owner)
    ensures var q := ShowPreview(p, deps, owner, ratio, path, m).0;
            var (p1, leaf) := SplitPane(OnOwnerFirst(p, owner), deps, Horizontal, PreviewStart(p, owner, path), m);
            if leaf == INVALID_LEAF then
              q == UpdateFocus(p1, if p.tree.focused == INVALID_LEAF then owner else p.tree.focused)
            else q == UpdateFocus(p1.(tree := SetParentRatio(p1.tree, leaf, ratio), previewLeaf := leaf,
                                      previewOwner := owner), owner)
  {
    hide SplitPane;
    hide UpdateFocus;
    hide SetParentRatio;
    hide SetFocused;
    var p0 := PreviewChecked(p);
    assert p0.tree == p.tree && p0.paneIds == p.paneIds;
    hide PreviewChecked;
    var q := SplitOffPreview(p0, deps, owner, ratio, path, m).0;
    assert ShowPreview(p, deps, owner, ratio, path, m).0 == q by { hide SplitOffPreview; }
    hide ShowPreview;
    hide Opens;
    assert PreviewStart(p, owner, path) == PreviewStart(p0, owner, path);
    assert OnOwnerFirst(p, owner) == p0.(tree := SetFocused(p0.tree, owner));
    hide OnOwnerFirst;
  }

  /// Hosts and focus after a preview is opened: the new leaf has a host of the maker
  /// and the owner the focus, or both are as before.
  lemma OpenHosts(p: Panes, deps: Deps, owner: LeafId, ratio: real, path: string, m: HostMaker)
    requires Sound(p) && Opens(p, deps, owner)
    ensures var q := ShowPreview(p, deps, owner, ratio, path, m).0;
            var (p1, leaf) := SplitPane(OnOwnerFirst(p, owner), deps, Horizontal, PreviewStart(p, owner, path), m);
            && (leaf != INVALID_LEAF <==> Previews(p, deps, owner, path, m))
            && q.hosts == p1.hosts && (leaf == INVALID_LEAF ==> p1.hosts == p.hosts && p1.tree.focused == owner)
            && q.tree.focused == (if leaf == INVALID_LEAF then p.tree.focused else owner)
            && (leaf != INVALID_LEAF ==>
                  && leaf !in p.hosts && p1.tree.focused == leaf != owner
                  && leaf in p1.hosts && p1.hosts[leaf] in MakerHosts(m) && p1.hosts == p.hosts[leaf := p1.hosts[leaf]])
  {
    hide OnOwnerFirst;
    hide PreviewStart;
    hide Sound;
    hide LeafSet;
    hide StartsAs;
    hide Completed;
    hide SplitPane;
    hide SplitBefore;
    hide UpdateFocus;
    hide SetFocused;
    var q0, launch := OnOwnerFirst(p, owner), PreviewStart(p, owner, path);
    OwnerFirstSound(p, owner);
    SplitHosts(q0, deps, Horizontal, launch, m);
    SplitSound(q0, deps, Horizontal, launch, m);
    HostedOnLeaf(p, owner);
    OpenUnfolds(p, deps, owner, ratio, path, m);
    var (p1, leaf) := SplitPane(q0, deps, Horizontal, launch, m);
    hide ShowPreview;
    if leaf == INVALID_LEAF {
      MadeFocused(p1, p.tree.focused);
    } else {
      PlacedAlike(p1, leaf, owner, ratio);
    }
  }

  /// Setting a ratio moves no leaf, so the focus arrives at the owner.
  lemma PlacedAlike(p: Panes, leaf: LeafId, owner: LeafId, ratio: real)
    requires Sound(p) && leaf in LeafSet(p.tree) && owner in LeafSet(p.tree)
    ensures var q := UpdateFocus(p.(tree := SetParentRatio(p.tree, leaf, ratio), previewLeaf := leaf,
                                    previewOwner := owner), owner);
            q.hosts == p.hosts && q.tree.focused == owner
  {
    assert WellFormed(p.tree) && leaf != INVALID_LEAF;
    ParentRatioLaw(p.tree, leaf, ratio);
    hide Sound;
    hide WellFormed;
    hide SetParentRatio;
    MadeFocused(p.(tree := SetParentRatio(p.tree, leaf, ratio), previewLeaf := leaf, previewOwner := owner), owner);
    hide UpdateFocus;
  }

  /// The calls of opening a preview: the owner has the focus as well as whoever had
  /// it, or nothing changes.
  lemma OpenCallsLaw(p: Panes, deps: Deps, owner: LeafId, path: string, m: HostMaker, holders: set<HostId>)
    requires InFocus(p, holders) && Opens(p, deps, owner) && MakerHosts(m) !! holders + p.hosts.Values
    ensures OpenCalls(p, deps, owner, path, m, holders) ==
              if Previews(p, deps, owner, path, m) then holders + HostAt(p, owner) else holders
  {
    OpenHosts(p, deps, owner, 0.0, path, m);
    OwnerFirstSound(p, owner);
    SplitHosts(OnOwnerFirst(p, owner), deps, Horizontal, PreviewStart(p, owner, path), m);
    FocusedHostLaw(p);
    SomeHold(holders, p.hosts.Values, FocusedHost(p));
    if owner != p.tree.focused {
      OthersHoldNothing(p, holders, owner);
    }
    hide Sound;
    hide Injective;
    hide LeafSet;
    hide StartsAs;
    hide Completed;
    hide SplitPane;
    hide SplitBefore;
    hide ShowPreview;
    hide OnOwnerFirst;
    hide Previews;
  }

  lemma OpenHandsOver(p: Panes, deps: Deps, owner: LeafId, ratio: real, path: string, m: HostMaker,
                      holders: set<HostId>)
    requires InFocus(p, holders) && MakerHosts(m) !! holders + p.hosts.Values
    ensures var op := OpenPreview(owner, ratio, path, m);
            PanesHandOver(p, holders, PaneResult(p, deps, op), PaneCalls(p, deps, op, holders)) <==>
              !OutOfStep(p, deps, op)
  {
    FocusedHostLaw(p);
    SomeHold(holders, p.hosts.Values, FocusedHost(p));
    if Opens(p, deps, owner) {
      OpenHosts(p, deps, owner, ratio, path, m);
      OpenCallsLaw(p, deps, owner, path, m, holders);
      hide ShowPreview;
      hide Sound;
      hide Injective;
      hide OpenCalls;
      hide SplitPane;
      hide OnOwnerFirst;
      hide StartsAs;
      hide Completed;
      if p.tree.focused in p.hosts && p.tree.focused != owner {
        assert Injective(p.hosts);
        HostsDiffer(p, p.tree.focused, owner);
      }
    }
  }

  lemma DropHandsOver(p: Panes, deps: Deps, holders: set<HostId>)
    requires InFocus(p, holders)
    ensures PanesHandOver(p, holders, HidePreview(p, deps), DropCalls(p, deps, holders))
  {
    FocusedHostLaw(p);
    SomeHold(holders, p.hosts.Values, FocusedHost(p));
    if deps.allowLocalLayout && p.previewLeaf != INVALID_LEAF {
      var p0 := p.(previewLeaf := INVALID_LEAF, previewOwner := INVALID_LEAF);
      var p1 := ClosePane(p0, deps, p.previewLeaf).0;
      var held := CloseCalls(p0, deps, p.previewLeaf, holders);
      PreviewForgotten(p, p0);
      CloseHandsOver(p0, deps, p.previewLeaf, holders);
      CloseSound(p0, deps, p.previewLeaf);
      CloseHosts(p0, deps, p.previewLeaf);
      hide Sound;
      hide ClosePane;
      hide CloseCalls;
      FewerOwn(p.hosts, p1.hosts, p.previewLeaf);
      hide Injective;
      FocusedHostLaw(p1);
      assert held * p1.hosts.Values == FocusedHost(p1);
      if p.previewOwner != INVALID_LEAF && p.previewOwner in p1.hosts {
        HostedOnLeaf(p1, p.previewOwner);
        MoveHandsOver(p1, held, p.previewOwner);
        MadeFocused(p1, p.previewOwner);
        hide UpdateFocus;
        hide MoveCalls;
        hide LeafSet;
        FocusedHostLaw(UpdateFocus(p1, p.previewOwner));
      }
    }
  }

  lemma FewerOwn(hosts: map<LeafId, HostId>, less: map<LeafId, HostId>, id: LeafId)
    requires Injective(hosts) && (less == hosts || less == hosts - {id})
    ensures Injective(less) && less.Values <= hosts.Values
  {}

  // ---------------------------------------------------------------------------
  // Every operation

  /// In the tab that has the focus, an operation hands it over from the focused host
  /// to the one focused then, unless it is one of those that are out of step.
  lemma PaneOpHandsOver(p: Panes, deps: Deps, op: PaneOp, holders: set<HostId>)
    requires InFocus(p, holders) && NewPaneHosts(op) !! holders + p.hosts.Values
    ensures PanesHandOver(p, holders, PaneResult(p, deps, op), PaneCalls(p, deps, op, holders)) <==>
              !OutOfStep(p, deps, op)
  {
    hide InFocus;
    hide PanesHandOver;
    hide SplitPane;
    hide ClosePane;
    hide RestartPane;
    hide SwapWithNext;
    hide ToggleZoom;
    hide UpdateFocus;
    hide MoveCalls;
    hide ShowPreview;
    hide HidePreview;
    hide OpenCalls;
    hide DropCalls;
    match op
    case SplitOff(dir, launch, m) => SplitHandsOver(p, deps, dir, launch, m, holders);
    case CloseLeafOf(id) => CloseHandsOver(p, deps, id, holders);
    case Restart(id, m) => RestartHandsOver(p, deps, id, m, holders);
    case SwapNext => SwapHandsOver(p, deps, holders);
    case Zooming => ZoomHandsOver(p, holders);
    case FocusOn(id) => MoveHandsOver(p, holders, id);
    case OpenPreview(owner, ratio, path, m) => OpenHandsOver(p, deps, owner, ratio, path, m, holders);
    case DropPreview => DropHandsOver(p, deps, holders);
  }

  /// Where the focused host is the only holder, it is so after an operation exactly
  /// when that was not out of step.
  lemma HolderFollows(p: Panes, deps: Deps, op: PaneOp, holders: set<HostId>)
    requires Own(p) && holders == FocusedHost(p) && NewPaneHosts(op) !! p.hosts.Values
    ensures PaneCalls(p, deps, op, holders) == FocusedHost(PaneResult(p, deps, op)) <==> !OutOfStep(p, deps, op)
  {
    FocusedHostLaw(p);
    hide PaneCalls;
    hide PaneResult;
    hide OutOfStep;
    hide Own;
    assert holders * p.hosts.Values == holders && holders - p.hosts.Values == {};
    PaneOpHandsOver(p, deps, op, holders);
  }

  /// How the hosts of a tab change in an operation: as before, fewer by one leaf, or
  /// with one of the new hosts on a leaf.
  ghost predicate OneChanged(hosts: map<LeafId, HostId>, hosts': map<LeafId, HostId>, made: set<HostId>) {
    || hosts' == hosts
    || (exists id :: hosts' == hosts - {id})
    || (exists id :: id in hosts' && hosts'[id] in made && hosts' == hosts[id := hosts'[id]])
  }

  lemma PaneOpHosts(p: Panes, deps: Deps, op: PaneOp)
    requires Sound(p)
    ensures OneChanged(p.hosts, PaneResult(p, deps, op).hosts, NewPaneHosts(op))
  {
    hide Sound;
    hide SplitPane;
    hide ClosePane;
    hide RestartPane;
    hide SwapWithNext;
    hide SplitBefore;
    hide ToggleZoom;
    hide UpdateFocus;
    hide LeafSet;
    hide ShowPreview;
    hide HidePreview;
    hide StartsAs;
    hide Completed;
    match op
    case SplitOff(dir, launch, m) => SplitHosts(p, deps, dir, launch, m);
    case CloseLeafOf(id) => CloseHosts(p, deps, id);
    case Restart(id, m) => RestartHosts(p, deps, id, m);
    case SwapNext => SwapMoves(p, deps);
    case Zooming => ZoomHosts(p);
    case FocusOn(id) => MadeFocused(p, id);
    case OpenPreview(owner, ratio, path, m) => OpenChanges(p, deps, owner, ratio, path, m);
    case DropPreview => DropChanges(p, deps);
  }

  lemma OpenChanges(p: Panes, deps: Deps, owner: LeafId, ratio: real, path: string, m: HostMaker)
    requires Sound(p)
    ensures OneChanged(p.hosts, ShowPreview(p, deps, owner, ratio, path, m).0.hosts, MakerHosts(m))
  {
    if Opens(p, deps, owner) {
      OpenHosts(p, deps, owner, ratio, path, m);
      hide ShowPreview;
      hide Sound;
      hide SplitPane;
      hide Previews;
    }
  }

  lemma DropChanges(p: Panes, deps: Deps)
    requires Sound(p)
    ensures OneChanged(p.hosts, HidePreview(p, deps).hosts, {})
  {
    var p0 := p.(previewLeaf := INVALID_LEAF, previewOwner := INVALID_LEAF);
    PreviewForgotten(p, p0);
    CloseHosts(p0, deps, p.previewLeaf);
    MadeFocused(ClosePane(p0, deps, p.previewLeaf).0, p.previewOwner);
    hide Sound;
    hide ClosePane;
    hide UpdateFocus;
  }

  lemma OneChangedOwn(hosts: map<LeafId, HostId>, hosts': map<LeafId, HostId>, made: set<HostId>)
    requires Injective(hosts) && OneChanged(hosts, hosts', made) && made !! hosts.Values
    ensures Injective(hosts') && hosts'.Values <= hosts.Values + made
  {
    if hosts' == hosts {
    } else if id :| hosts' == hosts - {id} {
      FewerOwn(hosts, hosts', id);
    } else {
      var id :| id in hosts' && hosts'[id] in made && hosts' == hosts[id := hosts'[id]];
      OneMoreOwn(hosts, id, hosts'[id]);
    }
  }

  lemma OneMoreOwn(hosts: map<LeafId, HostId>, id: LeafId, h: HostId)
    requires Injective(hosts) && h !in hosts.Values
    ensures Injective(hosts[id := h]) && hosts[id := h].Values <= hosts.Values + {h}
  {
    var hosts' := hosts[id := h];
    forall a, b | a in hosts' && b in hosts' && a != b ensures hosts'[a] != hosts'[b] {
      assert a in hosts ==> hosts[a] in hosts.Values;
      assert b in hosts ==> hosts[b] in hosts.Values;
    }
  }

  /// Every operation keeps the panes sound and brings in no host but a new one.
  lemma PaneOpKeepsOwn(p: Panes, deps: Deps, op: PaneOp)
    requires Own(p) && NewPaneHosts(op) !! p.hosts.Values
    ensures var q := PaneResult(p, deps, op); Own(q) && q.hosts.Values <= p.hosts.Values + NewPaneHosts(op)
  {
    PaneOpHosts(p, deps, op);
    PaneOpSound(p, deps, op);
    hide Sound;
    hide PaneResult;
    hide NewPaneHosts;
    hide OneChanged;
    OneChangedOwn(p.hosts, PaneResult(p, deps, op).hosts, NewPaneHosts(op));
  }

  lemma PaneOpSound(p: Panes, deps: Deps, op: PaneOp)
    requires Sound(p)
    ensures Sound(PaneResult(p, deps, op))
  {
    hide Sound;
    hide SplitPane;
    hide ClosePane;
    hide RestartPane;
    hide SwapWithNext;
    hide ToggleZoom;
    hide UpdateFocus;
    hide ShowPreview;
    hide HidePreview;
    match op
    case SplitOff(dir, launch, m) => SplitSound(p, deps, dir, launch, m);
    case CloseLeafOf(id) => CloseSound(p, deps, id);
    case Restart(id, m) => RestartSound(p, deps, id, m);
    case SwapNext => SwapSound(p, deps);
    case Zooming => ToggleZoomSound(p);
    case FocusOn(id) => FocusSound(p, id);
    case OpenPreview(owner, ratio, path, m) => ShowPreviewSound(p, deps, owner, ratio, path, m);
    case DropPreview => HidePreviewSound(p, deps);
  }

  // ---------------------------------------------------------------------------
  // Out of step

  /// A lone pane that is restarted: its new host is never told that it has the focus.
  lemma RestartLosesFocus(deps: Deps) returns (p: Panes, op: PaneOp)
    ensures InFocus(p, FocusedHost(p)) && OutOfStep(p, deps, op)
    ensures FocusedHost(PaneResult(p, deps, op)) != {} && PaneCalls(p, deps, op, FocusedHost(p)) == {}
  {
    p := OnePane(deps);
    var m := HostMaker(Some(3), true, 4, true);
    op := Restart(0, m);
    OneLeaf(p);
    RestartAlwaysStarts(deps, p.launches[0], m);
    RestartHosts(p, deps, 0, m);
    hide RestartPane;
    hide StartsAs;
    hide Sound;
  }

  /// A preview opened for another pane than the focused one: both hold the focus.
  lemma PreviewSharesFocus(deps: Deps) returns (p: Panes, op: PaneOp)
    requires deps.allowLocalLayout
    ensures InFocus(p, FocusedHost(p)) && OutOfStep(p, deps, op) && op.OpenPreview?
    ensures FocusedHost(p) != {} && FocusedHost(PaneResult(p, deps, op)) == HostAt(p, op.owner) != FocusedHost(p)
    ensures PaneCalls(p, deps, op, FocusedHost(p)) == FocusedHost(p) + HostAt(p, op.owner)
  {
    p := TwoHosts(deps, HostMaker(Some(3), true, 4, true));
    var m := HostMaker(Some(5), true, 6, true);
    op := OpenPreview(0, 0.5, "", m);
    SplitAlwaysStarts(deps, PreviewStart(p, 0, ""), m);
    hide StartsAs;
    hide PreviewStart;
    FocusedHostLaw(p);
    HostsDiffer(p, 0, p.tree.focused);
    hide Sound;
    hide Injective;
    hide PaneResult;
    hide PaneCalls;
    OpenedBeside(p, deps, 0, 0.5, "", m);
  }

  lemma OpenedBeside(p: Panes, deps: Deps, owner: LeafId, ratio: real, path: string, m: HostMaker)
    requires InFocus(p, FocusedHost(p)) && Opens(p, deps, owner) && Previews(p, deps, owner, path, m)
    requires MakerHosts(m) !! p.hosts.Values
    ensures var op := OpenPreview(owner, ratio, path, m);
            && FocusedHost(PaneResult(p, deps, op)) == HostAt(p, owner)
            && PaneCalls(p, deps, op, FocusedHost(p)) == FocusedHost(p) + HostAt(p, owner)
  {
    hide Sound;
    hide Injective;
    hide OpenCalls;
    hide ShowPreview;
    hide Previews;
    OpenedFocus(p, deps, owner, ratio, path, m);
    OpenCallsLaw(p, deps, owner, path, m, FocusedHost(p));
  }

  lemma OpenedFocus(p: Panes, deps: Deps, owner: LeafId, ratio: real, path: string, m: HostMaker)
    requires Sound(p) && Opens(p, deps, owner) && Previews(p, deps, owner, path, m)
    ensures FocusedHost(ShowPreview(p, deps, owner, ratio, path, m).0) == HostAt(p, owner)
  {
    hide Sound;
    hide ShowPreview;
    hide SplitPane;
    hide OnOwnerFirst;
    hide Previews;
    OpenHosts(p, deps, owner, ratio, path, m);
  }

  /// A first pane and one split off it, each with a host of its own.
  lemma TwoHosts(deps: Deps, m: HostMaker) returns (p: Panes)
    requires deps.allowLocalLayout && m == HostMaker(Some(3), true, 4, true)
    ensures Own(p) && p.hosts.Values <= {1, 3, 4} && 0 in p.hosts && p.tree.focused in p.hosts && p.tree.focused != 0
    ensures p.previewLeaf == INVALID_LEAF && p.tree.nextId == 2
  {
    var p0 := OnePane(deps);
    var launch := SplitLaunch(deps);
    OneLeaf(p0);
    SplitAlwaysStarts(deps, launch, m);
    SplitHosts(p0, deps, Vertical, launch, m);
    SplitFrame(p0, deps, Vertical, launch, m);
    PaneOpKeepsOwn(p0, deps, SplitOff(Vertical, launch, m));
    p := SplitPane(p0, deps, Vertical, launch, m).0;
    hide StartsAs;
    hide Sound;
    hide Injective;
    hide SplitPane;
    hide SplitBefore;
    hide SplitLaunch;
    hide Completed;
  }

  lemma SplitFrame(p: Panes, deps: Deps, dir: Direction, launch: Launch, m: HostMaker)
    ensures var (q, leaf) := SplitPane(p, deps, dir, launch, m);
            leaf != INVALID_LEAF ==> q.previewLeaf == p.previewLeaf && q.tree.nextId == p.tree.nextId + 1
  {
    var (tree, leaf) := SplitLeaf(p.tree, p.tree.focused, dir);
    CreateOnlyTables(p.(tree := tree), deps, leaf, Completed(launch, deps), false, false, m);
    hide CreateHost;
    hide Completed;
  }

  lemma SplitAlwaysStarts(deps: Deps, launch: Launch, m: HostMaker)
    requires m.provider.Some? && m.initializes && m.placeholderInitializes
    ensures StartsAs(deps, Completed(launch, deps), false, false, m).Some?
  {}

  lemma RestartAlwaysStarts(deps: Deps, launch: Launch, m: HostMaker)
    requires m.provider.Some? && m.initializes && m.placeholderInitializes
    ensures StartsAs(deps, launch, false, true, m).Some?
  {}

  lemma OneLeaf(p: Panes)
    requires Consistent(p) && Sound(p) && TreeLeaves(p.tree) == [0]
    ensures Own(p) && FocusedHost(p) == p.hosts.Values && p.tree.focused == 0 && 0 in p.hosts && 0 in p.launches
  {
    assert forall id :: id in p.hosts <==> id in p.hosts.Keys;
    assert LeafSet(p.tree) == {0};
    hide UniqueIds;
  }
}
