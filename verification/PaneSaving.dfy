/** Saving panes that a run has led to: when the snapshot comes back the same. */
module PaneSaving {
  import opened Identifiers
  import opened SplitTrees
  import opened PaneNames
  import opened PaneModel
  import opened PaneInvariants
  import opened PaneRoundTrip
  import opened PaneReconcile
  import opened PaneApply
  import opened PaneFailure
  import opened PaneZoom
  import opened PaneRuns

  /// Neither agents nor their policies change.
  ghost predicate SameAgents(p: Panes, q: Panes) {
    q.agents == p.agents && q.policies == p.policies
  }

  lemma SplitSameAgents(p: Panes, deps: Deps, dir: Direction, launch: Launch, m: HostMaker)
    ensures SameAgents(p, SplitPane(p, deps, dir, launch, m).0)
  {
    hide CreateHost;
    hide SplitLeaf;
    hide CloseLeaf;
    hide Completed;
    hide SetFocused;
    var (tree, leaf) := SplitLeaf(p.tree, p.tree.focused, dir);
    CreateOnlyTables(p.(tree := tree), deps, leaf, Completed(launch, deps), false, false, m);
  }

  lemma PreviewSameAgents(p: Panes, deps: Deps, owner: LeafId, ratio: real, path: string, m: HostMaker)
    ensures SameAgents(p, ShowPreview(p, deps, owner, ratio, path, m).0)
  {
    ShowCases(p, deps, owner, ratio, path, m);
    hide ShowPreview;
    SplitOffSameAgents(PreviewChecked(p), deps, owner, ratio, path, m);
    hide SplitOffPreview;
  }

  lemma SplitOffSameAgents(p: Panes, deps: Deps, owner: LeafId, ratio: real, path: string, m: HostMaker)
    ensures SameAgents(p, SplitOffPreview(p, deps, owner, ratio, path, m).0)
  {
    hide SplitPane;
    hide SetParentRatio;
    hide SetFocused;
    hide UpdateFocus;
    hide PreviewLaunch;
    var q := p.(tree := SetFocused(p.tree, owner));
    var launch := PreviewLaunch(path, if owner in p.paneIds then p.paneIds[owner] else "");
    SplitSameAgents(q, deps, Horizontal, launch, m);
    var (p1, leaf) := SplitPane(q, deps, Horizontal, launch, m);
    FocusSameAgents(p1, if p.tree.focused == INVALID_LEAF then owner else p.tree.focused);
    FocusSameAgents(p1.(tree := SetParentRatio(p1.tree, leaf, ratio), previewLeaf := leaf, previewOwner := owner),
                    owner);
  }

  lemma FocusSameAgents(p: Panes, id: LeafId)
    ensures SameAgents(p, UpdateFocus(p, id))
  {}

  lemma RestartSameAgents(p: Panes, deps: Deps, id: LeafId, m: HostMaker)
    ensures SameAgents(p, RestartPane(p, deps, id, m).0)
  {
    hide CreateHost;
    if id in p.launches {
      CreateOnlyTables(p.(hosts := p.hosts - {id}), deps, id, p.launches[id], false, true, m);
    }
  }

  lemma SwapSameAgents(p: Panes, deps: Deps)
    ensures SameAgents(p, SwapWithNext(p, deps).0)
  {}

  lemma ZoomSameAgents(p: Panes)
    ensures SameAgents(p, ToggleZoom(p))
  {}

  lemma SessionSameAgents(p: Panes, id: LeafId, session: SessionRef, valid: bool)
    ensures SameAgents(p, SetSession(p, id, session, valid).0)
  {}

  lemma SameAgentsManaged(p: Panes, q: Panes)
    requires PoliciesManaged(p) && SameAgents(p, q)
    ensures PoliciesManaged(q)
  {}

  lemma DroppedManaged(p: Panes, q: Panes, gone: set<LeafId>)
    requires PoliciesManaged(p) && q.agents == p.agents - gone && q.policies == p.policies - gone
    ensures PoliciesManaged(q)
  {}

  lemma CloseManaged(p: Panes, deps: Deps, id: LeafId)
    requires PoliciesManaged(p)
    ensures PoliciesManaged(ClosePane(p, deps, id).0)
  {
    hide CloseLeaf;
    hide PoliciesManaged;
    var q := ClosePane(p, deps, id).0;
    if q.policies == p.policies && q.agents == p.agents {
      SameAgentsManaged(p, q);
    } else {
      DroppedManaged(p, q, {id});
    }
  }

  lemma HideManaged(p: Panes, deps: Deps)
    requires PoliciesManaged(p)
    ensures PoliciesManaged(HidePreview(p, deps))
  {
    hide PoliciesManaged;
    hide ClosePane;
    hide UpdateFocus;
    if deps.allowLocalLayout && p.previewLeaf != INVALID_LEAF {
      var p0 := p.(previewLeaf := INVALID_LEAF, previewOwner := INVALID_LEAF);
      var p1 := ClosePane(p0, deps, p.previewLeaf).0;
      SameAgentsManaged(p, p0);
      CloseManaged(p0, deps, p.previewLeaf);
      FocusSameAgents(p1, p.previewOwner);
      SameAgentsManaged(p1, HidePreview(p, deps));
    }
  }

  /// Panes put back after a failed reconcile have their policies from their agents.
  lemma PutBackManaged(p: Panes, deps: Deps, snap: LayoutSnapshot, cwd: LeafId -> string, again: LeafId -> HostMaker)
    requires Housed(p) && ZoomLive(p) && NamedIds(p) && PoliciesManaged(p) && Accepts(snap)
    requires SnapshotLayout(p, cwd).Some? && AllStart(deps, SnapshotLayout(p, cwd).value.panes, again)
    requires Consistent(RestoreLayout(Stripped(p, snap), deps, SnapshotLayout(p, cwd).value, again).0)
    ensures PoliciesManaged(RestoreLayout(Stripped(p, snap), deps, SnapshotLayout(p, cwd).value, again).0)
  {
    AcceptedIds(snap);
    hide Accepts;
    hide Restore;
    hide ZoomShown;
    hide ZoomLive;
    hide NamedIds;
    hide LeafSet;
    hide Strays;
    hide StartsAs;
    hide RuntimeLaunch;
    hide Consistent;
    hide Stripped;
    hide Housed;
    hide WellSaved;
    hide SnapshotLayout;
    hide RestoreLayout;
    hide PaneRestored;
    hide PoliciesManaged;
    SnapshotIsWellSaved(p, cwd);
    var saved := SnapshotLayout(p, cwd).value;
    var base := Stripped(p, snap);
    SubPolicies(p, snap);
    RestoreLayoutLaw(base, deps, saved, again);
    var q := RestoreLayout(base, deps, saved, again).0;
    KeysOnLeaves(q);
    SettledLeaves(saved);
    BackManaged(p, q, base, deps, saved, again, cwd);
  }

  lemma SettledLeaves(saved: LayoutSnapshot)
    ensures TreeLeaves(Settled(saved).tree) == TreeLeaves(saved.tree)
  {}

  lemma BackManaged(p: Panes, q: Panes, base: Panes, deps: Deps, saved: LayoutSnapshot, again: LeafId -> HostMaker,
                    cwd: LeafId -> string)
    requires PoliciesManaged(p) && SnapshotLayout(p, cwd) == Some(saved) && WellSaved(saved)
             && AllStart(deps, saved.panes, again)
    requires forall i :: 0 <= i < |saved.panes| ==>
               PaneRestored(q, base, deps, saved.panes[i], HostOf(deps, saved.panes, i, again).value)
    requires forall id :: id in base.policies ==> Lookup(p.policies, id) == Some(base.policies[id])
    requires forall id :: id in q.policies ==> id in TreeLeaves(saved.tree)
    ensures PoliciesManaged(q)
  {
    hide PaneRestored;
    hide StartsAs;
    hide RuntimeLaunch;
    hide WellFormed;
    forall id | id in q.policies && !(id in q.agents && q.agents[id].origin == Managed)
      ensures q.policies[id] == ResumeIfAvailable
    {
      var i := IndexOf(LeavesOf(saved.panes), id);
      assert saved.panes[i] == SavePane(p, id, cwd(id));
      PolicyBack(p, q, base, deps, saved.panes[i], HostOf(deps, saved.panes, i, again).value, cwd(id));
    }
  }

  /// A policy without a managed agent is the one from before the failure.
  lemma PolicyBack(p: Panes, q: Panes, base: Panes, deps: Deps, pane: PaneSnapshot, host: HostId, cwd: string)
    requires PoliciesManaged(p) && PaneRestored(q, base, deps, pane, host) && SavedWell(pane)
    requires pane.leaf in p.launches && pane == SavePane(p, pane.leaf, cwd)
    requires pane.leaf in base.policies ==> Lookup(p.policies, pane.leaf) == Some(base.policies[pane.leaf])
    requires pane.leaf in q.policies && !(pane.leaf in q.agents && q.agents[pane.leaf].origin == Managed)
    ensures q.policies[pane.leaf] == ResumeIfAvailable
  {
    hide Completed;
    assert pane.agent.None?;
  }

  lemma SubPolicies(p: Panes, snap: LayoutSnapshot)
    requires Restore(snap.tree).Some?
    ensures forall id :: id in Stripped(p, snap).policies ==>
              Lookup(p.policies, id) == Some(Stripped(p, snap).policies[id])
  {
    hide Restore;
    hide KeptLeaves;
  }

  lemma KeysOnLeaves(q: Panes)
    requires Consistent(q)
    ensures forall id :: id in q.policies ==> id in TreeLeaves(q.tree)
  {
    hide WellFormed;
    hide UniqueIds;
    forall id | id in q.policies ensures id in TreeLeaves(q.tree) {
      assert id in q.policies.Keys;
    }
  }

  /// Every operation keeps policies with managed agents, one that goes back to a
  /// saved layout if it succeeds in that.
  lemma StepKeepsPolicies(deps: Deps, p: Panes, op: Op, q: Panes)
    requires Sound(p) && PoliciesManaged(p) && Step(deps, p, op, q)
    requires GoesBack(p, op) ==> Consistent(q)
    ensures PoliciesManaged(q)
  {
    hide Sound;
    hide Consistent;
    hide PoliciesManaged;
    hide SplitPane;
    hide ClosePane;
    hide RestartPane;
    hide ShowPreview;
    hide HidePreview;
    hide UpdateFocus;
    hide ToggleZoom;
    hide SwapWithNext;
    hide SetAgent;
    hide SetSession;
    hide Reconciled;
    hide Accepts;
    match op
    case DoSplit(dir, launch, m) => SplitSameAgents(p, deps, dir, launch, m); SameAgentsManaged(p, q);
    case DoClose(id) => CloseManaged(p, deps, id);
    case DoRestart(id, m) => RestartSameAgents(p, deps, id, m); SameAgentsManaged(p, q);
    case DoSwap => SwapSameAgents(p, deps); SameAgentsManaged(p, q);
    case DoToggleZoom => ZoomSameAgents(p); SameAgentsManaged(p, q);
    case DoFocus(id) => FocusSameAgents(p, id); SameAgentsManaged(p, q);
    case DoShowPreview(owner, ratio, path, m) =>
      PreviewSameAgents(p, deps, owner, ratio, path, m);
      SameAgentsManaged(p, q);
    case DoHidePreview => HideManaged(p, deps);
    case DoSetName(id, name) => SameAgentsManaged(p, q);
    case DoSetAgent(id, agent, policy) => AgentManaged(p, id, agent, policy);
    case DoClearAgent(id) => DroppedManaged(p, q, {id});
    case DoSetSession(id, session, valid) => SessionSameAgents(p, id, session, valid); SameAgentsManaged(p, q);
    case DoReconcile(snap, factory, cwd, again, ok) =>
      ReconcileManaged(p, deps, snap, factory, cwd, again, q, ok);
  }

  lemma AgentManaged(p: Panes, id: LeafId, agent: AgentIdentity, policy: RestorePolicy)
    requires PoliciesManaged(p) && (agent.origin == Discovered ==> policy == ResumeIfAvailable)
    ensures PoliciesManaged(SetAgent(p, id, agent, policy))
  {}

  lemma ReconcileManaged(p: Panes, deps: Deps, snap: LayoutSnapshot, factory: LeafId -> HostMaker,
                         cwd: LeafId -> string, again: LeafId -> HostMaker, q: Panes, ok: bool)
    requires Sound(p) && PoliciesManaged(p) && Reconciled(p, deps, snap, factory, cwd, again, q, ok)
    requires Accepts(snap) ==> Distinct(TreeLeaves(snap.tree))
    requires Accepts(snap) && !ok && Housed(p) ==> Consistent(q)
    ensures PoliciesManaged(q)
  {
    hide Sound;
    hide Housed;
    hide Consistent;
    hide PoliciesManaged;
    hide Accepts;
    hide Reconciled;
    hide Stuck;
    hide Strays;
    hide ZoomShown;
    hide LeafSet;
    hide SnapshotLayout;
    if !Accepts(snap) {
      RejectedStays(p, deps, snap, factory, cwd, again, q, ok);
    } else if ok {
      AcceptedIds(snap);
      SucceededApplies(p, deps, snap, factory, cwd, again, q);
      AppliedManaged(p, deps, snap, factory, q);
    } else {
      AcceptedIds(snap);
      ReconciledLaw(p, deps, snap, factory, cwd, again, q, ok);
      if Housed(p) {
        SoundParts(p);
        WentBack(p, deps, snap, factory, cwd, again, q);
        PutBackManaged(p, deps, snap, cwd, again);
      } else {
        StuckLaw(p, deps, snap, factory, q);
      }
    }
  }

  lemma AppliedManaged(p: Panes, deps: Deps, snap: LayoutSnapshot, factory: LeafId -> HostMaker, q: Panes)
    requires Restore(snap.tree).Some? && Applied(p, deps, snap, factory, q) && PoliciesManaged(p)
    ensures PoliciesManaged(q)
  {
    assert q.agents == p.agents - (p.hosts.Keys - KeptLeaves(p, snap))
      && q.policies == p.policies - (p.hosts.Keys - KeptLeaves(p, snap));
    hide Applied;
    hide Restore;
    hide KeptLeaves;
    DroppedManaged(p, q, p.hosts.Keys - KeptLeaves(p, snap));
  }

  lemma WentBack(p: Panes, deps: Deps, snap: LayoutSnapshot, factory: LeafId -> HostMaker,
                 cwd: LeafId -> string, again: LeafId -> HostMaker, q: Panes)
    requires Accepts(snap) && Reconciled(p, deps, snap, factory, cwd, again, q, false) && SnapshotLayout(p, cwd).Some?
    ensures Restore(snap.tree).Some?
            && q == RestoreLayout(Stripped(p, snap), deps, SnapshotLayout(p, cwd).value, again).0
  {
    hide Restore;
    hide RestoreLayout;
    hide Stripped;
    hide SnapshotLayout;
    hide SomeHostFails;
  }

  /// A shutdown forgets agents but not their policies, so a saved layout that cannot
  /// be put back leaves a policy without its agent.
  lemma PolicyOutlivesAgent(p: Panes, id: LeafId)
    requires id in p.policies && p.policies[id] != ResumeIfAvailable
    ensures !PoliciesManaged(Shutdown(p))
  {
    assert id in Shutdown(p).policies;
  }

  // ---------------------------------------------------------------------------
  // From creation to a second save

  /// What a run starts from: the panes of a manager that was just created.
  lemma CreatedLaw(deps: Deps, launch: Launch, m: HostMaker)
    requires Create(NO_PANES, deps, launch, m).1
    ensures var p := Create(NO_PANES, deps, launch, m).0;
            Consistent(p) && ZoomShown(p) && NamedIds(p) && PoliciesManaged(p) && Sound(p)
  {
    CreateLaw(NO_PANES, deps, launch, m);
    var p := Create(NO_PANES, deps, launch, m).0;
    CreateOnlyTables(NO_PANES.(tree := Reset()), deps, 0, launch.(ptyCaptureFile := deps.ptyCaptureFile), true, false,
                     m);
    CreatedNamed(deps, launch, m);
    hide Create;
    hide Consistent;
    hide NamedIds;
    ConsistentIsSound(p);
  }

  /// Over every run that goes back only to layouts it can put back, policies stay
  /// with managed agents.
  lemma {:induction false} RunKeepsPolicies(deps: Deps, states: seq<Panes>, ops: seq<Op>, k: nat)
    requires Run(deps, states, ops) && k <= |ops| && Sound(states[0]) && PoliciesManaged(states[0])
    requires forall i :: 0 <= i < k && GoesBack(states[i], ops[i]) ==> Consistent(states[i + 1])
    ensures PoliciesManaged(states[k])
  {
    hide Step;
    hide Sound;
    hide Consistent;
    hide GoesBack;
    hide PoliciesManaged;
    if k > 0 {
      RunKeepsPolicies(deps, states, ops, k - 1);
      RunKeepsSound(deps, states, ops, k - 1);
      StepKeepsPolicies(deps, states[k - 1], ops[k - 1], states[k]);
    }
  }

  /// However a manager was used since it was created, as long as no operation broke
  /// its tables: it can be saved, and restored and saved again it gives the same
  /// snapshot exactly when no focus was behind a zoom and every launch survives.
  lemma ReachedIsSavedAlike(deps: Deps, launch: Launch, m: HostMaker, states: seq<Panes>, ops: seq<Op>, k: nat,
                            cwd: LeafId -> string, factory: LeafId -> HostMaker, cwd2: LeafId -> string)
    requires Create(NO_PANES, deps, launch, m).1
    requires Run(deps, states, ops) && k <= |ops| && states[0] == Create(NO_PANES, deps, launch, m).0
    requires forall i :: 0 <= i < k ==> !Breaks(deps, states[i], ops[i])
    requires SnapshotLayout(states[k], cwd).Some? ==>
               AllStart(deps, SnapshotLayout(states[k], cwd).value.panes, factory)
    ensures SnapshotLayout(states[k], cwd).Some?
    ensures var saved := SnapshotLayout(states[k], cwd).value;
            var (q, ok) := RestoreLayout(NO_PANES, deps, saved, factory);
            && ok
            && (SnapshotLayout(q, cwd2) == Some(saved) <==>
                ZoomShown(states[k]) && forall i :: 0 <= i < |saved.panes| ==>
                  LaunchSurvives(deps, saved.panes[i].launch, cwd2(saved.panes[i].leaf)))
  {
    hide Create;
    hide Step;
    hide Breaks;
    hide Consistent;
    hide ZoomShown;
    hide ZoomLive;
    hide NamedIds;
    hide PoliciesManaged;
    hide Sound;
    hide AllStart;
    hide SnapshotLayout;
    hide RestoreLayout;
    hide GoesBack;
    hide WellSaved;
    hide LaunchSurvives;
    var p := states[k];
    CreatedLaw(deps, launch, m);
    ZoomShownLive(states[0]);
    RunKeepsConsistent(deps, states, ops, k);
    forall i | 0 <= i < k && GoesBack(states[i], ops[i]) ensures Consistent(states[i + 1]) {
      RunKeepsConsistent(deps, states, ops, i + 1);
    }
    RunKeepsPolicies(deps, states, ops, k);
    ConsistentIsSound(p);
    SnapshotIsWellSaved(p, cwd);
    SaveRestoreSave(p, deps, cwd, factory, cwd2);
  }

  /// A run that splits, zooms and swaps ends in a tab whose focus is behind its
  /// zoom; such a tab never saves the same again.
  lemma HiddenFocusIsNotSavedBack(deps: Deps, cwd: LeafId -> string, factory: LeafId -> HostMaker,
                                  cwd2: LeafId -> string)
    returns (states: seq<Panes>, ops: seq<Op>)
    requires deps.allowLocalLayout
    ensures Run(deps, states, ops) && |ops| == 3
            && Create(NO_PANES, deps, SplitLaunch(deps), STARTS) == (states[0], true)
    ensures !ZoomShown(states[3]) && SnapshotLayout(states[3], cwd).Some?
    ensures var saved := SnapshotLayout(states[3], cwd).value;
            AllStart(deps, saved.panes, factory) ==>
              SnapshotLayout(RestoreLayout(NO_PANES, deps, saved, factory).0, cwd2) != Some(saved)
  {
    hide Consistent;
    hide ZoomLive;
    hide NamedIds;
    hide SplitPane;
    hide ToggleZoom;
    hide SwapWithNext;
    hide Create;
    hide SnapshotLayout;
    hide RestoreLayout;
    hide AllStart;
    hide SplitLaunch;
    var p0 := OnePane(deps);
    var p1 := SplitPane(p0, deps, Vertical, SplitLaunch(deps), STARTS).0;
    var p2 := ZoomedPair(p0, deps);
    var p3 := SwapWithNext(p2, deps).0;
    states := [p0, p1, p2, p3];
    ops := [DoSplit(Vertical, SplitLaunch(deps), STARTS), DoToggleZoom, DoSwap];
    SwapLaw(p2, deps);
    ZoomNeedsTwo(p2);
    CreatedLaw(deps, SplitLaunch(deps), STARTS);
    ZoomShownLive(p0);
    assert forall i :: 0 <= i < 3 ==> !Breaks(deps, states[i], ops[i]);
    RunKeepsConsistent(deps, states, ops, 3);
    SaveOrNot(p3, deps, cwd, factory, cwd2);
  }

  /// Without a swap: a pane whose restart finds no host gets the focus, and the zoom
  /// stays on the other one.
  lemma HostlessPaneTakesFocus(deps: Deps) returns (states: seq<Panes>, ops: seq<Op>)
    requires deps.allowLocalLayout
    ensures Run(deps, states, ops) && Create(NO_PANES, deps, SplitLaunch(deps), STARTS) == (states[0], true)
    ensures ops == [DoSplit(Vertical, SplitLaunch(deps), STARTS), DoRestart(0, NEVER_STARTS), DoToggleZoom, DoFocus(0)]
    ensures Sound(states[3]) && ZoomShown(states[3]) && HidesFocus(deps, states[3], ops[3]) && !ZoomShown(states[4])
  {
    hide Consistent;
    hide SplitPane;
    hide Create;
    hide SplitLaunch;
    hide RestartPane;
    var p0 := OnePane(deps);
    CreatedLaw(deps, SplitLaunch(deps), STARTS);
    FirstSplit(p0, deps);
    var p1 := SplitPane(p0, deps, Vertical, SplitLaunch(deps), STARTS).0;
    InLeafSet(p0.tree, 0);
    var p2 := RestartPane(p1, deps, 0, NEVER_STARTS).0;
    StrandsFirst(p1, deps);
    var p3 := ToggleZoom(p2);
    var p4 := UpdateFocus(p3, 0);
    states := [p0, p1, p2, p3, p4];
    ops := [DoSplit(Vertical, SplitLaunch(deps), STARTS), DoRestart(0, NEVER_STARTS), DoToggleZoom, DoFocus(0)];
    hide UpdateFocus;
    hide Sound;
    hide ZoomShown;
    assert Run(deps, states, ops) by { hide ToggleZoom; }
    assert forall i :: 0 <= i < 3 ==> !HidesFocus(deps, states[i], ops[i]);
    RunKeepsSound(deps, states, ops, 3);
    RunKeepsZoomShown(deps, states, ops, 3);
    assert HidesFocus(deps, p3, ops[3]);
    StepKeepsZoomShown(deps, p3, ops[3], p4);
  }

  lemma StrandsFirst(p: Panes, deps: Deps)
    requires Consistent(p) && 0 in LeafSet(p.tree)
    ensures var q := RestartPane(p, deps, 0, NEVER_STARTS).0;
            0 !in q.hosts && q.tree == p.tree && q.zoomed == p.zoomed
  {
    RestartLaw(p, deps, 0, NEVER_STARTS);
    hide RestartPane;
    hide Consistent;
  }

  lemma ZoomNeedsTwo(p: Panes)
    requires ZoomShown(p) && p.zoomed
    ensures |TreeLeaves(p.tree)| >= 2
  {}

  lemma SaveOrNot(p: Panes, deps: Deps, cwd: LeafId -> string, factory: LeafId -> HostMaker, cwd2: LeafId -> string)
    requires Consistent(p) && ZoomLive(p) && NamedIds(p) && !ZoomShown(p)
    ensures SnapshotLayout(p, cwd).Some?
    ensures var saved := SnapshotLayout(p, cwd).value;
            AllStart(deps, saved.panes, factory) ==>
              SnapshotLayout(RestoreLayout(NO_PANES, deps, saved, factory).0, cwd2) != Some(saved)
  {
    hide Consistent;
    hide ZoomLive;
    hide NamedIds;
    hide SnapshotLayout;
    hide RestoreLayout;
    hide AllStart;
    hide Housed;
    hide Sound;
    ConsistentIsSound(p);
    SnapshotIsWellSaved(p, cwd);
    hide WellSaved;
    if AllStart(deps, SnapshotLayout(p, cwd).value.panes, factory) {
      SaveRestoreSave(p, deps, cwd, factory, cwd2);
    }
  }

  lemma ZoomShownLive(p: Panes)
    requires ZoomShown(p)
    ensures ZoomLive(p)
  {}
}
