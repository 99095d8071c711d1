/** Runs of pane operations, failed ones included: what holds after every one. */
module PaneRuns {
  import opened Identifiers
  import opened SplitTrees
  import opened PaneModel
  import opened PaneInvariants
  import opened PaneRoundTrip
  import opened PaneReconcile
  import opened PaneApply
  import opened PaneFailure
  import opened PaneSound
  import opened PaneZoom

  datatype Op =
    | DoSplit(dir: Direction, launch: Launch, maker: HostMaker)
    | DoClose(leaf: LeafId)
    | DoRestart(leaf: LeafId, maker: HostMaker)
    | DoSwap
    | DoToggleZoom
    | DoFocus(leaf: LeafId)
    | DoShowPreview(owner: LeafId, ratio: real, path: string, maker: HostMaker)
    | DoHidePreview
    | DoSetName(leaf: LeafId, name: string)
    | DoSetAgent(leaf: LeafId, agent: AgentIdentity, policy: RestorePolicy)
    | DoClearAgent(leaf: LeafId)
    | DoSetSession(leaf: LeafId, session: SessionRef, valid: bool)
    | DoReconcile(snap: LayoutSnapshot, factory: LeafId -> HostMaker, cwd: LeafId -> string,
                  again: LeafId -> HostMaker, ok: bool)

  /// One operation, whether or not it succeeds. Callers record a discovered agent
  /// with the default policy, and a projected layout shows no leaf twice.
  ghost predicate Step(deps: Deps, p: Panes, op: Op, q: Panes) {
    match op
    case DoSplit(dir, launch, m) => q == SplitPane(p, deps, dir, launch, m).0
    case DoClose(id) => q == ClosePane(p, deps, id).0
    case DoRestart(id, m) => q == RestartPane(p, deps, id, m).0
    case DoSwap => q == SwapWithNext(p, deps).0
    case DoToggleZoom => q == ToggleZoom(p)
    case DoFocus(id) => q == UpdateFocus(p, id)
    case DoShowPreview(owner, ratio, path, m) => q == ShowPreview(p, deps, owner, ratio, path, m).0
    case DoHidePreview => q == HidePreview(p, deps)
    case DoSetName(id, name) => q == SetName(p, id, name)
    case DoSetAgent(id, agent, policy) =>
      q == SetAgent(p, id, agent, policy) && (agent.origin == Discovered ==> policy == ResumeIfAvailable)
    case DoClearAgent(id) => q == ClearAgent(p, id)
    case DoSetSession(id, session, valid) => q == SetSession(p, id, session, valid).0
    case DoReconcile(snap, factory, cwd, again, ok) =>
      && (Accepts(snap) ==> Distinct(TreeLeaves(snap.tree)))
      && Reconciled(p, deps, snap, factory, cwd, again, q, ok)
  }

  /// The operations after which tables and tree no longer agree: a restart that
  /// finds no host, a name for a leaf that is not there yet, and a failed
  /// reconcile whose saved layout cannot be put back either.
  ghost predicate Breaks(deps: Deps, p: Panes, op: Op) {
    match op
    case DoRestart(id, m) => id in p.hosts && id in p.launches && StartsAs(deps, p.launches[id], false, true, m).None?
    case DoSetName(id, name) => name != "" && id !in LeafSet(p.tree)
    case DoReconcile(snap, factory, cwd, again, ok) =>
      Accepts(snap) && !ok && SnapshotLayout(p, cwd).Some? && !AllStart(deps, SnapshotLayout(p, cwd).value.panes, again)
    case _ => false
  }

  /// A failed reconcile that went back to the saved layout; the counters start over.
  ghost predicate GoesBack(p: Panes, op: Op) {
    op.DoReconcile? && Accepts(op.snap) && !op.ok && Housed(p)
  }

  // ---------------------------------------------------------------------------
  // One operation

  /// Every operation, failed or not, keeps the panes sound.
  lemma StepKeepsSound(deps: Deps, p: Panes, op: Op, q: Panes)
    requires Sound(p) && Step(deps, p, op, q)
    ensures Sound(q)
  {
    hide Sound;
    hide SplitPane;
    hide ClosePane;
    hide RestartPane;
    hide SwapWithNext;
    hide ToggleZoom;
    hide UpdateFocus;
    hide ShowPreview;
    hide HidePreview;
    hide Reconciled;
    hide Accepts;
    match op
    case DoSplit(dir, launch, m) => SplitSound(p, deps, dir, launch, m);
    case DoClose(id) => CloseSound(p, deps, id);
    case DoRestart(id, m) => RestartSound(p, deps, id, m);
    case DoSwap => SwapSound(p, deps);
    case DoToggleZoom => ToggleZoomSound(p);
    case DoFocus(id) => FocusSound(p, id);
    case DoShowPreview(owner, ratio, path, m) => ShowPreviewSound(p, deps, owner, ratio, path, m);
    case DoHidePreview => HidePreviewSound(p, deps);
    case DoSetName(id, name) => RecordsSound(p, q);
    case DoSetAgent(id, agent, policy) => RecordsSound(p, q);
    case DoClearAgent(id) => RecordsSound(p, q);
    case DoSetSession(id, session, valid) => RecordsSound(p, q);
    case DoReconcile(snap, factory, cwd, again, ok) => ReconciledLaw(p, deps, snap, factory, cwd, again, q, ok);
  }

  /// From panes whose tables agree with their tree, exactly the breaking
  /// operations lead to others.
  lemma StepKeepsConsistent(deps: Deps, p: Panes, op: Op, q: Panes)
    requires Consistent(p) && ZoomLive(p) && NamedIds(p) && Step(deps, p, op, q)
    ensures Consistent(q) <==> !Breaks(deps, p, op)
    ensures ZoomLive(q) && NamedIds(q)
  {
    ConsistentIsSound(p);
    StepKeepsSound(deps, p, op, q);
    SoundParts(q);
    hide Sound;
    hide Consistent;
    hide ZoomLive;
    hide NamedIds;
    hide Strays;
    hide Housed;
    if IsLayout(op) {
      LayoutKeepsConsistent(deps, p, op, q);
      hide Step;
    } else {
      RecordsKeepConsistent(deps, p, op, q);
      hide Step;
      hide Breaks;
    }
  }

  /// Splits, closes, moves and previews.
  predicate IsLayout(op: Op) {
    op.DoSplit? || op.DoClose? || op.DoSwap? || op.DoToggleZoom? || op.DoFocus? || op.DoShowPreview?
      || op.DoHidePreview?
  }

  lemma LayoutKeepsConsistent(deps: Deps, p: Panes, op: Op, q: Panes)
    requires Consistent(p) && ZoomLive(p) && Step(deps, p, op, q) && IsLayout(op)
    ensures Consistent(q)
  {
    hide Consistent;
    hide ZoomLive;
    hide ZoomShown;
    hide SplitPane;
    hide ClosePane;
    hide SwapWithNext;
    hide ToggleZoom;
    hide UpdateFocus;
    hide ShowPreview;
    hide HidePreview;
    hide LeafSet;
    hide TreeLeaves;
    hide SetFocused;
    match op
    case DoSplit(dir, launch, m) => SplitLaw(p, deps, dir, launch, m);
    case DoClose(id) => CloseLaw(p, deps, id);
    case DoSwap => SwapKeepsZoomLive(p, deps);
    case DoToggleZoom => ToggleZoomLaw(p);
    case DoFocus(id) => UpdateFocusLaw(p, id);
    case DoShowPreview(owner, ratio, path, m) => ShowPreviewLaw(p, deps, owner, ratio, path, m);
    case DoHidePreview => HidePreviewLaw(p, deps);
  }

  lemma RecordsKeepConsistent(deps: Deps, p: Panes, op: Op, q: Panes)
    requires Consistent(p) && ZoomLive(p) && NamedIds(p) && Step(deps, p, op, q) && !IsLayout(op)
    ensures Consistent(q) <==> !Breaks(deps, p, op)
  {
    hide Consistent;
    hide ZoomLive;
    hide ZoomShown;
    hide NamedIds;
    hide RestartPane;
    hide StartsAs;
    hide Reconciled;
    hide Accepts;
    hide SnapshotLayout;
    hide AllStart;
    hide LeafSet;
    hide SetName;
    hide SetAgent;
    hide ClearAgent;
    hide SetSession;
    match op
    case DoRestart(id, m) => RestartBreaks(p, deps, id, m);
    case DoSetName(id, name) => NameBreaks(p, id, name);
    case DoSetAgent(id, agent, policy) => AgentKeeps(p, id, agent, policy);
    case DoClearAgent(id) => ClearKeeps(p, id);
    case DoSetSession(id, session, valid) => SessionKeeps(p, id, session, valid);
    case DoReconcile(snap, factory, cwd, again, ok) =>
      ReconcileBreaks(p, deps, snap, factory, cwd, again, q, ok);
  }

  lemma SoundParts(q: Panes)
    requires Sound(q)
    ensures ZoomLive(q) && NamedIds(q)
  {}

  lemma RestartBreaks(p: Panes, deps: Deps, id: LeafId, m: HostMaker)
    requires Consistent(p)
    ensures var q := RestartPane(p, deps, id, m).0;
            && (Consistent(q) <==>
                !(id in p.hosts && id in p.launches && StartsAs(deps, p.launches[id], false, true, m).None?))
            && q.tree == p.tree && q.zoomed == p.zoomed && q.zoomedLeaf == p.zoomedLeaf
  {
    hide StartsAs;
    hide CreateHost;
    if id in LeafSet(p.tree) {
      RestartLaw(p, deps, id, m);
    }
  }

  lemma NameBreaks(p: Panes, id: LeafId, name: string)
    requires Consistent(p)
    ensures Consistent(SetName(p, id, name)) <==> name == "" || id in LeafSet(p.tree)
  {
    var q := SetName(p, id, name);
    if name != "" {
      assert q.names.Keys == p.names.Keys + {id};
    }
    hide LeafSet;
    RecordsConsistent(p, q);
  }

  lemma AgentKeeps(p: Panes, id: LeafId, agent: AgentIdentity, policy: RestorePolicy)
    requires Consistent(p)
    ensures Consistent(SetAgent(p, id, agent, policy))
  {
    hide LeafSet;
    RecordsConsistent(p, SetAgent(p, id, agent, policy));
    AgentOnLeaves(p, id, agent, policy);
    hide SetAgent;
    hide Consistent;
  }

  lemma AgentOnLeaves(p: Panes, id: LeafId, agent: AgentIdentity, policy: RestorePolicy)
    requires Consistent(p)
    ensures NoStrays(SetAgent(p, id, agent, policy), LeafSet(p.tree))
  {
    hide WellFormed;
    hide UniqueIds;
    hide LeafSet;
    hide PreviewOn;
    assert id in p.hosts ==> id in p.hosts.Keys;
    var q := SetAgent(p, id, agent, policy);
    assert q.agents.Keys <= p.agents.Keys + (if id in p.hosts then {id} else {});
    assert q.policies.Keys <= p.policies.Keys + (if id in p.hosts then {id} else {});
    assert PreviewOn(q, LeafSet(p.tree)) by { SamePreview(p, q, LeafSet(p.tree)); }
  }

  lemma SamePreview(p: Panes, q: Panes, ids: set<LeafId>)
    requires PreviewOn(p, ids) && q.previewLeaf == p.previewLeaf && q.previewOwner == p.previewOwner
    ensures PreviewOn(q, ids)
  {}

  lemma ClearKeeps(p: Panes, id: LeafId)
    requires Consistent(p)
    ensures Consistent(ClearAgent(p, id))
  {
    hide LeafSet;
    RecordsConsistent(p, ClearAgent(p, id));
    hide WellFormed;
    hide UniqueIds;
  }

  lemma SessionKeeps(p: Panes, id: LeafId, session: SessionRef, valid: bool)
    requires Consistent(p)
    ensures Consistent(SetSession(p, id, session, valid).0)
  {
    hide LeafSet;
    RecordsConsistent(p, SetSession(p, id, session, valid).0);
    hide WellFormed;
    hide UniqueIds;
    assert id in p.agents ==> id in p.agents.Keys;
  }

  /// Names, agents, policies and session references have only to be on leaves.
  lemma RecordsConsistent(p: Panes, q: Panes)
    requires Consistent(p)
             && q == p.(names := q.names, agents := q.agents, policies := q.policies, sessions := q.sessions)
    ensures Consistent(q) <==> NoStrays(q, LeafSet(p.tree))
  {
    hide WellFormed;
    hide LeafSet;
    hide Injective;
  }

  lemma ReconcileBreaks(p: Panes, deps: Deps, snap: LayoutSnapshot, factory: LeafId -> HostMaker,
                        cwd: LeafId -> string, again: LeafId -> HostMaker, q: Panes, ok: bool)
    requires Consistent(p) && ZoomLive(p) && NamedIds(p) && Reconciled(p, deps, snap, factory, cwd, again, q, ok)
    requires Accepts(snap) ==> Distinct(TreeLeaves(snap.tree))
    ensures Consistent(q) <==> !Breaks(deps, p, DoReconcile(snap, factory, cwd, again, ok))
    ensures Accepts(snap) ==> ZoomShown(q)
    ensures !Accepts(snap) ==> q == p
  {
    hide Consistent;
    hide ZoomShown;
    hide ZoomLive;
    hide NamedIds;
    hide Accepts;
    hide Reconciled;
    hide AllStart;
    hide SnapshotLayout;
    if Accepts(snap) {
      FromConsistent(p, deps, snap, factory, cwd, again, q, ok);
    } else {
      RejectedStays(p, deps, snap, factory, cwd, again, q, ok);
    }
  }

  lemma FromConsistent(p: Panes, deps: Deps, snap: LayoutSnapshot, factory: LeafId -> HostMaker,
                       cwd: LeafId -> string, again: LeafId -> HostMaker, q: Panes, ok: bool)
    requires Consistent(p) && ZoomLive(p) && NamedIds(p) && Reconciled(p, deps, snap, factory, cwd, again, q, ok)
    requires Accepts(snap) && Distinct(TreeLeaves(snap.tree))
    ensures ZoomShown(q) && SnapshotLayout(p, cwd).Some?
    ensures Consistent(q) <==> ok || AllStart(deps, SnapshotLayout(p, cwd).value.panes, again)
  {
    ConsistentIsSound(p);
    RecordsOnLeaves(p);
    ReconciledLaw(p, deps, snap, factory, cwd, again, q, ok);
    hide *;
  }

  lemma RejectedStays(p: Panes, deps: Deps, snap: LayoutSnapshot, factory: LeafId -> HostMaker,
                      cwd: LeafId -> string, again: LeafId -> HostMaker, q: Panes, ok: bool)
    requires Reconciled(p, deps, snap, factory, cwd, again, q, ok) && !Accepts(snap)
    ensures q == p && !ok
  {
    hide Accepts;
  }

  lemma RecordsOnLeaves(p: Panes)
    requires Consistent(p)
    ensures p.policies.Keys + p.sessions.Keys <= LeafSet(p.tree)
  {
    hide WellFormed;
    hide UniqueIds;
  }

  /// The operations that put the keyboard into a pane the zoom hides: a swap, which
  /// moves the focus and not the zoom, and a focus move to a leaf whose host could
  /// not be started.
  ghost predicate HidesFocus(deps: Deps, p: Panes, op: Op) {
    match op
    case DoSwap => p.zoomed && deps.allowLocalLayout
    case DoFocus(id) => p.zoomed && id != p.tree.focused && id in LeafSet(p.tree) && id !in p.hosts
    case _ => false
  }

  /// In every state in which the visible pane has the keyboard, exactly those two
  /// operations take it away, whatever failed before or fails now.
  lemma StepKeepsZoomShown(deps: Deps, p: Panes, op: Op, q: Panes)
    requires Sound(p) && ZoomShown(p) && Step(deps, p, op, q)
    ensures ZoomShown(q) <==> !HidesFocus(deps, p, op)
  {
    StepKeepsSound(deps, p, op, q);
    ShownExactly(p);
    ShownExactly(q);
    hide Sound;
    hide ZoomShown;
    hide SplitPane;
    hide ClosePane;
    hide SwapWithNext;
    hide ToggleZoom;
    hide UpdateFocus;
    hide ShowPreview;
    hide HidePreview;
    hide RestartPane;
    hide Reconciled;
    hide Accepts;
    hide LeafSet;
    match op
    case DoSplit(dir, launch, m) => SplitView(p, deps, dir, launch, m);
    case DoClose(id) => CloseView(p, deps, id);
    case DoRestart(id, m) => RestartView(p, deps, id, m);
    case DoSwap => SwapView(p, deps);
    case DoToggleZoom => ToggleView(p);
    case DoFocus(id) => FocusView(p, id);
    case DoShowPreview(owner, ratio, path, m) => ShowView(p, deps, owner, ratio, path, m);
    case DoHidePreview => HideView(p, deps);
    case DoSetName(id, name) =>
    case DoSetAgent(id, agent, policy) =>
    case DoClearAgent(id) =>
    case DoSetSession(id, session, valid) =>
    case DoReconcile(snap, factory, cwd, again, ok) => ReconcileView(p, deps, snap, factory, cwd, again, q, ok);
  }

  lemma RestartView(p: Panes, deps: Deps, id: LeafId, m: HostMaker)
    ensures SameView(p, RestartPane(p, deps, id, m).0)
  {
    hide CreateHost;
    if id in p.launches {
      CreateOnlyTables(p.(hosts := p.hosts - {id}), deps, id, p.launches[id], false, true, m);
    }
  }

  lemma ReconcileView(p: Panes, deps: Deps, snap: LayoutSnapshot, factory: LeafId -> HostMaker,
                      cwd: LeafId -> string, again: LeafId -> HostMaker, q: Panes, ok: bool)
    requires Sound(p) && ZoomShown(p) && Reconciled(p, deps, snap, factory, cwd, again, q, ok)
    requires Accepts(snap) ==> Distinct(TreeLeaves(snap.tree))
    ensures ZoomShown(q)
  {
    hide Accepts;
    if Accepts(snap) {
      ReconciledLaw(p, deps, snap, factory, cwd, again, q, ok);
    } else {
      RejectedStays(p, deps, snap, factory, cwd, again, q, ok);
    }
    hide *;
  }

  // ---------------------------------------------------------------------------
  // Generations

  /// Every generation in q is the leaf's own from p or was issued after p.
  ghost predicate NoReuse(p: Panes, q: Panes) {
    && p.nextGeneration <= q.nextGeneration
    && forall id :: id in q.generations ==>
         Lookup(p.generations, id) == Some(q.generations[id]) || p.nextGeneration <= q.generations[id]
  }

  lemma CreateNoReuse(p: Panes, deps: Deps, id: LeafId, launch: Launch, primary: bool, preserve: bool, m: HostMaker)
    ensures NoReuse(p, CreateHost(p, deps, id, launch, primary, preserve, m).0)
  {
    CreateOnlyTables(p, deps, id, launch, primary, preserve, m);
    CreateOrNot(p, deps, id, launch, primary, preserve, m);
    hide CreateHost;
    hide StartsAs;
  }

  lemma CreateOrNot(p: Panes, deps: Deps, id: LeafId, launch: Launch, primary: bool, preserve: bool, m: HostMaker)
    ensures var (q, ok) := CreateHost(p, deps, id, launch, primary, preserve, m);
            !ok ==> q.generations == p.generations && q.nextGeneration == p.nextGeneration
  {
    hide StartsAs;
    WithPaneIdOnly(p, id);
    hide WithPaneId;
  }

  lemma FocusFrame(p: Panes, id: LeafId)
    ensures UpdateFocus(p, id).generations == p.generations && UpdateFocus(p, id).nextGeneration == p.nextGeneration
  {}

  lemma SwapFrame(p: Panes, deps: Deps)
    ensures var q := SwapWithNext(p, deps).0; q.generations == p.generations && q.nextGeneration == p.nextGeneration
  {}

  lemma ZoomFrame(p: Panes)
    ensures var q := ToggleZoom(p); q.generations == p.generations && q.nextGeneration == p.nextGeneration
  {}

  lemma AgentFrame(p: Panes, id: LeafId, agent: AgentIdentity, policy: RestorePolicy)
    ensures var q := SetAgent(p, id, agent, policy);
            q.generations == p.generations && q.nextGeneration == p.nextGeneration
  {}

  lemma SessionFrame(p: Panes, id: LeafId, session: SessionRef, valid: bool)
    ensures var q := SetSession(p, id, session, valid).0;
            q.generations == p.generations && q.nextGeneration == p.nextGeneration
  {}

  lemma RestartNoReuse(p: Panes, deps: Deps, id: LeafId, m: HostMaker)
    ensures NoReuse(p, RestartPane(p, deps, id, m).0)
  {
    hide CreateHost;
    hide NoReuse;
    SameGenerations(p, p, p, p);
    if id != INVALID_LEAF && id in p.hosts && id in p.launches {
      var p0 := p.(hosts := p.hosts - {id});
      CreateNoReuse(p0, deps, id, p.launches[id], false, true, m);
      SameGenerations(p, p0, RestartPane(p, deps, id, m).0, RestartPane(p, deps, id, m).0);
    }
  }

  lemma SplitNoReuse(p: Panes, deps: Deps, dir: Direction, launch: Launch, m: HostMaker)
    ensures NoReuse(p, SplitPane(p, deps, dir, launch, m).0)
  {
    hide CreateHost;
    hide SplitLeaf;
    hide CloseLeaf;
    hide UpdateFocus;
    hide Completed;
    hide NoReuse;
    var (tree, leaf) := SplitLeaf(p.tree, p.tree.focused, dir);
    var q := p.(tree := tree);
    var p1 := CreateHost(q, deps, leaf, Completed(launch, deps), false, false, m).0;
    CreateNoReuse(q, deps, leaf, Completed(launch, deps), false, false, m);
    FocusFrame(p1, leaf);
    SameGenerations(p, q, p1, SplitPane(p, deps, dir, launch, m).0);
  }

  lemma ShowPreviewNoReuse(p: Panes, deps: Deps, owner: LeafId, ratio: real, path: string, m: HostMaker)
    ensures NoReuse(p, ShowPreview(p, deps, owner, ratio, path, m).0)
  {
    hide NoReuse;
    ShowCases(p, deps, owner, ratio, path, m);
    hide ShowPreview;
    hide SplitOffPreview;
    CheckedFrame(p);
    hide PreviewChecked;
    var q, r := PreviewChecked(p), ShowPreview(p, deps, owner, ratio, path, m).0;
    SplitOffNoReuse(q, deps, owner, ratio, path, m);
    OneOfThree(p, q, SplitOffPreview(q, deps, owner, ratio, path, m).0, r);
  }

  lemma CheckedFrame(p: Panes)
    ensures var q := PreviewChecked(p); q.generations == p.generations && q.nextGeneration == p.nextGeneration
  {}

  lemma OneOfThree(p: Panes, q: Panes, s: Panes, r: Panes)
    requires q.generations == p.generations && q.nextGeneration == p.nextGeneration && NoReuse(q, s)
    requires r == p || r == q || r == s
    ensures NoReuse(p, r)
  {}

  lemma SplitOffNoReuse(p: Panes, deps: Deps, owner: LeafId, ratio: real, path: string, m: HostMaker)
    ensures NoReuse(p, SplitOffPreview(p, deps, owner, ratio, path, m).0)
  {
    hide SplitPane;
    hide SetParentRatio;
    hide SetFocused;
    hide UpdateFocus;
    hide NoReuse;
    hide PreviewLaunch;
    var q := p.(tree := SetFocused(p.tree, owner));
    var launch := PreviewLaunch(path, if owner in p.paneIds then p.paneIds[owner] else "");
    var (p1, leaf) := SplitPane(q, deps, Horizontal, launch, m);
    var p' := SplitOffPreview(p, deps, owner, ratio, path, m).0;
    SplitNoReuse(q, deps, Horizontal, launch, m);
    FocusFrame(p1, if p.tree.focused == INVALID_LEAF then owner else p.tree.focused);
    FocusFrame(p1.(tree := SetParentRatio(p1.tree, leaf, ratio), previewLeaf := leaf, previewOwner := owner), owner);
    SameGenerations(p, q, p1, p');
  }

  lemma SameGenerations(p: Panes, q: Panes, p1: Panes, p': Panes)
    requires (NoReuse(q, p1) || p1 == p) && q.generations == p.generations && q.nextGeneration == p.nextGeneration
    requires (p'.generations == p1.generations && p'.nextGeneration == p1.nextGeneration)
          || (p'.generations == p.generations && p'.nextGeneration == p.nextGeneration)
    ensures NoReuse(p, p')
  {}

  lemma HideNoReuse(p: Panes, deps: Deps)
    ensures NoReuse(p, HidePreview(p, deps))
  {
    if deps.allowLocalLayout && p.previewLeaf != INVALID_LEAF {
      hide SetFocused;
      hide CloseLeaf;
      var q := p.(previewLeaf := INVALID_LEAF, previewOwner := INVALID_LEAF);
      FocusFrame(ClosePane(q, deps, p.previewLeaf).0, p.previewOwner);
      CloseNoReuse(q, deps, p.previewLeaf);
      hide ClosePane;
      hide UpdateFocus;
    }
  }

  lemma CloseNoReuse(p: Panes, deps: Deps, id: LeafId)
    ensures NoReuse(p, ClosePane(p, deps, id).0)
  {
    hide CloseLeaf;
    var q := ClosePane(p, deps, id).0;
    assert q.nextGeneration == p.nextGeneration;
    assert q.generations == p.generations || q.generations == p.generations - {id};
    hide ClosePane;
  }

  /// No operation hands out a generation that was issued before, unless it goes
  /// back to a saved layout.
  lemma StepNoReuse(deps: Deps, p: Panes, op: Op, q: Panes)
    requires Sound(p) && Step(deps, p, op, q) && !GoesBack(p, op)
    ensures NoReuse(p, q)
  {
    hide SplitPane;
    hide ShowPreview;
    hide HidePreview;
    hide ClosePane;
    hide CreateHost;
    hide RestartPane;
    hide SwapWithNext;
    hide ToggleZoom;
    hide UpdateFocus;
    hide SetAgent;
    hide SetSession;
    hide NoReuse;
    hide Reconciled;
    hide Accepts;
    hide Sound;
    hide Housed;
    match op
    case DoSplit(dir, launch, m) => SplitNoReuse(p, deps, dir, launch, m);
    case DoClose(id) => CloseNoReuse(p, deps, id);
    case DoRestart(id, m) => RestartNoReuse(p, deps, id, m);
    case DoSwap => SwapFrame(p, deps); SameGenerations(p, p, p, q);
    case DoToggleZoom => ZoomFrame(p); SameGenerations(p, p, p, q);
    case DoFocus(id) => FocusFrame(p, id); SameGenerations(p, p, p, q);
    case DoShowPreview(owner, ratio, path, m) => ShowPreviewNoReuse(p, deps, owner, ratio, path, m);
    case DoHidePreview => HideNoReuse(p, deps);
    case DoSetName(id, name) => SameGenerations(p, p, p, q);
    case DoSetAgent(id, agent, policy) => AgentFrame(p, id, agent, policy); SameGenerations(p, p, p, q);
    case DoClearAgent(id) => SameGenerations(p, p, p, q);
    case DoSetSession(id, session, valid) => SessionFrame(p, id, session, valid); SameGenerations(p, p, p, q);
    case DoReconcile(snap, factory, cwd, again, ok) => ReconcileNoReuse(p, deps, snap, factory, cwd, again, q, ok);
  }

  lemma ReconcileNoReuse(p: Panes, deps: Deps, snap: LayoutSnapshot, factory: LeafId -> HostMaker,
                         cwd: LeafId -> string, again: LeafId -> HostMaker, q: Panes, ok: bool)
    requires Sound(p) && Reconciled(p, deps, snap, factory, cwd, again, q, ok)
    requires Accepts(snap) ==> Distinct(TreeLeaves(snap.tree))
    requires Accepts(snap) && !ok ==> !Housed(p)
    ensures NoReuse(p, q)
  {
    hide Sound;
    hide Housed;
    hide Accepts;
    hide Reconciled;
    hide Stuck;
    hide Strays;
    hide Consistent;
    hide ZoomShown;
    hide LeafSet;
    hide SnapshotLayout;
    if !Accepts(snap) {
      RejectedStays(p, deps, snap, factory, cwd, again, q, ok);
    } else if ok {
      AcceptedIds(snap);
      SucceededApplies(p, deps, snap, factory, cwd, again, q);
      AppliedNoReuse(p, deps, snap, factory, q);
    } else {
      AcceptedIds(snap);
      ReconciledLaw(p, deps, snap, factory, cwd, again, q, ok);
      StuckLaw(p, deps, snap, factory, q);
    }
  }

  lemma SucceededApplies(p: Panes, deps: Deps, snap: LayoutSnapshot, factory: LeafId -> HostMaker,
                         cwd: LeafId -> string, again: LeafId -> HostMaker, q: Panes)
    requires Accepts(snap) && Reconciled(p, deps, snap, factory, cwd, again, q, true)
    ensures Restore(snap.tree).Some? && Applied(p, deps, snap, factory, q)
  {
    hide Applied;
    hide Restore;
  }

  lemma AppliedNoReuse(p: Panes, deps: Deps, snap: LayoutSnapshot, factory: LeafId -> HostMaker, q: Panes)
    requires Restore(snap.tree).Some? && Applied(p, deps, snap, factory, q)
    ensures NoReuse(p, q)
  {
    hide Applied;
    hide LeafApplied;
    hide LeafOutside;
    hide Restore;
    AppliedShape(p, deps, snap, factory, q);
    var wanted := ByLeaf(snap.panes);
    forall id | id in q.generations
      ensures Lookup(p.generations, id) == Some(q.generations[id]) || p.nextGeneration <= q.generations[id]
    {
      if id in wanted {
        LeafNoReuse(p, deps, snap, factory, q, wanted[id]);
      } else {
        OutsideNoReuse(p, q, id);
      }
    }
  }

  lemma LeafNoReuse(p: Panes, deps: Deps, snap: LayoutSnapshot, factory: LeafId -> HostMaker, q: Panes,
                    pane: PaneSnapshot)
    requires LeafApplied(p, deps, snap, factory, q, pane)
    ensures pane.leaf in q.generations
    ensures Lookup(p.generations, pane.leaf) == Some(q.generations[pane.leaf])
            || p.nextGeneration <= q.generations[pane.leaf]
  {
    hide StartsAs;
    hide Kept;
  }

  lemma OutsideNoReuse(p: Panes, q: Panes, id: LeafId)
    requires LeafOutside(p, q, id) && id in q.generations
    ensures Lookup(p.generations, id) == Some(q.generations[id])
  {}

  // ---------------------------------------------------------------------------
  // Whole runs

  /// The i-th operation leads from the i-th state to the next.
  ghost predicate Run(deps: Deps, states: seq<Panes>, ops: seq<Op>) {
    && |states| == |ops| + 1
    && forall i :: 0 <= i < |ops| ==> Step(deps, states[i], ops[i], states[i + 1])
  }

  /// Over every run, whatever fails in it, the panes stay sound.
  lemma {:induction false} RunKeepsSound(deps: Deps, states: seq<Panes>, ops: seq<Op>, k: nat)
    requires Run(deps, states, ops) && k <= |ops| && Sound(states[0])
    ensures Sound(states[k])
  {
    hide Step;
    hide Sound;
    if k > 0 {
      RunKeepsSound(deps, states, ops, k - 1);
      StepKeepsSound(deps, states[k - 1], ops[k - 1], states[k]);
    }
  }

  /// As long as no operation breaks them, the tables agree with the tree, stable
  /// ids and generations are unique, and a zoom is on a live pane of several; and
  /// the first operation that breaks them is followed by tables that disagree.
  lemma {:induction false} RunKeepsConsistent(deps: Deps, states: seq<Panes>, ops: seq<Op>, k: nat)
    requires Run(deps, states, ops) && k <= |ops|
    requires Consistent(states[0]) && ZoomLive(states[0]) && NamedIds(states[0])
    requires forall i :: 0 <= i < k - 1 ==> !Breaks(deps, states[i], ops[i])
    ensures ZoomLive(states[k]) && NamedIds(states[k])
    ensures Consistent(states[k]) <==> (k > 0 ==> !Breaks(deps, states[k - 1], ops[k - 1]))
  {
    hide Step;
    hide Breaks;
    hide Consistent;
    hide ZoomLive;
    hide NamedIds;
    if k > 0 {
      RunKeepsConsistent(deps, states, ops, k - 1);
      StepKeepsConsistent(deps, states[k - 1], ops[k - 1], states[k]);
    }
  }

  /// Over every run, whatever fails in it, the visible pane has the keyboard up to
  /// the first operation that hides the focus; after that one it has not.
  lemma {:induction false} RunKeepsZoomShown(deps: Deps, states: seq<Panes>, ops: seq<Op>, k: nat)
    requires Run(deps, states, ops) && k <= |ops| && Sound(states[0]) && ZoomShown(states[0])
    requires forall i :: 0 <= i < k - 1 ==> !HidesFocus(deps, states[i], ops[i])
    ensures ZoomShown(states[k]) <==> (k > 0 ==> !HidesFocus(deps, states[k - 1], ops[k - 1]))
  {
    hide Step;
    hide Sound;
    hide ZoomShown;
    hide HidesFocus;
    if k > 0 {
      RunKeepsZoomShown(deps, states, ops, k - 1);
      RunKeepsSound(deps, states, ops, k - 1);
      StepKeepsZoomShown(deps, states[k - 1], ops[k - 1], states[k]);
    }
  }

  /// A generation seen at two moments of a run belongs to the same leaf at both,
  /// as long as no failed reconcile between them went back to a saved layout.
  lemma {:induction false} GenerationsNeverReused(deps: Deps, states: seq<Panes>, ops: seq<Op>, i: nat, j: nat,
                                                  a: LeafId, b: LeafId)
    requires Run(deps, states, ops) && i <= j <= |ops| && Sound(states[0])
    requires forall k :: i <= k < j ==> !GoesBack(states[k], ops[k])
    requires a in states[i].generations && b in states[j].generations
    requires states[i].generations[a] == states[j].generations[b]
    ensures a == b && forall k :: i <= k <= j ==>
              a in states[k].generations && states[k].generations[a] == states[i].generations[a]
    decreases j - i
  {
    hide Step;
    hide Sound;
    hide GoesBack;
    RunKeepsSound(deps, states, ops, i);
    OneLeafEach(states[i], a, a);
    if i < j {
      RunKeepsSound(deps, states, ops, j - 1);
      StepNoReuse(deps, states[j - 1], ops[j - 1], states[j]);
      CounterGrows(deps, states, ops, i, j - 1);
      GenerationsNeverReused(deps, states, ops, i, j - 1, a, b);
    } else {
      OneLeafEach(states[i], a, b);
    }
  }

  lemma OneLeafEach(p: Panes, a: LeafId, b: LeafId)
    requires Sound(p) && a in p.generations && b in p.generations && p.generations[a] == p.generations[b]
    ensures a == b && p.generations[a] < p.nextGeneration
  {
    hide WellFormed;
  }

  lemma {:induction false} CounterGrows(deps: Deps, states: seq<Panes>, ops: seq<Op>, i: nat, j: nat)
    requires Run(deps, states, ops) && i <= j <= |ops| && Sound(states[0])
    requires forall k :: i <= k < j ==> !GoesBack(states[k], ops[k])
    ensures states[i].nextGeneration <= states[j].nextGeneration
    decreases j - i
  {
    hide Step;
    hide Sound;
    hide GoesBack;
    if i < j {
      CounterGrows(deps, states, ops, i, j - 1);
      RunKeepsSound(deps, states, ops, j - 1);
      StepNoReuse(deps, states[j - 1], ops[j - 1], states[j]);
    }
  }
}
