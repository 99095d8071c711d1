/** The pane manager itself: the fields it updates in place and the loops it runs,
    each method proved against what PaneModel says the operation does. */
module PaneManagers {
  import opened Identifiers
  import opened SplitTrees
  import opened PaneNames
  import opened PaneModel
  import opened PaneInvariants
  import opened PaneRoundTrip
  import opened PaneReconcile
  import opened PaneApply
  import opened PaneFailure

  class PaneManager {
    const deps: Deps
    var tree: SplitTree
    var hosts: map<LeafId, HostId>
    var launches: map<LeafId, Launch>
    var names: map<LeafId, string>
    var paneIds: map<LeafId, string>
    var agents: map<LeafId, AgentIdentity>
    var policies: map<LeafId, RestorePolicy>
    var sessions: map<LeafId, SessionRef>
    var generations: map<LeafId, nat>
    var nextGeneration: nat
    var nextSerial: nat
    var zoomed: bool
    var zoomedLeaf: LeafId
    var previewLeaf: LeafId
    var previewOwner: LeafId

    function View(): Panes
      reads this
    {
      Panes(tree, hosts, launches, names, paneIds, agents, policies, sessions, generations,
            nextGeneration, nextSerial, zoomed, zoomedLeaf, previewLeaf, previewOwner)
    }

    constructor (deps: Deps)
      ensures View() == NO_PANES && this.deps == deps
    {
      this.deps := deps;
      tree := EMPTY;
      hosts, launches, names, paneIds := map[], map[], map[], map[];
      agents, policies, sessions, generations := map[], map[], map[], map[];
      nextGeneration, nextSerial := 1, 1;
      zoomed, zoomedLeaf, previewLeaf, previewOwner := false, INVALID_LEAF, INVALID_LEAF, INVALID_LEAF;
    }

    /// Finds the first unused generated identity, counting the serial up.
    method EnsurePaneId(id: LeafId)
      modifies `paneIds, `nextSerial
      ensures View() == WithPaneId(old(View()), id)
    {
      if id in paneIds {
        return;
      }
      ghost var used := paneIds.Values;
      while true
        invariant paneIds == old(paneIds) && used <= paneIds.Values
        invariant old(nextSerial) <= nextSerial
        invariant FreshSerial(used, nextSerial) == FreshSerial(old(paneIds).Values, old(nextSerial))
        invariant forall k: nat :: k >= nextSerial && PaneName(k) in paneIds.Values ==> PaneName(k) in used
        decreases |used|
      {
        var candidate := PaneName(nextSerial);
        nextSerial := nextSerial + 1;
        if candidate !in paneIds.Values {
          paneIds := paneIds[id := candidate];
          return;
        }
        used := used - {candidate};
        forall k: nat | k >= nextSerial && PaneName(k) in paneIds.Values ensures PaneName(k) in used {
          if PaneName(k) == candidate {
            PaneNameInjective(k, nextSerial - 1);
          }
        }
      }
    }

    /// Asks for the host and, where a failure may be covered, for the placeholder.
    method MakeHost(launch: Launch, isPrimary: bool, preserveFailed: bool, m: HostMaker) returns (host: Option<HostId>)
      ensures host == StartsAs(deps, launch, isPrimary, preserveFailed, m)
    {
      var clientHost := ProjectsClientHost(launch);
      var isPlaceholder := (clientHost && launch.clientHostKind !in deps.knownHostKinds)
        || (m.provider.None? && clientHost);
      host := if isPlaceholder then Some(m.placeholder) else m.provider;
      if host.None? {
        if !preserveFailed {
          return None;
        }
        isPlaceholder, host := true, Some(m.placeholder);
      }
      var started := if isPlaceholder then m.placeholderInitializes else m.initializes;
      if !started {
        var cliPlugin := isPrimary && deps.kindExplicit && deps.primaryKind == Plugin;
        if (launch.kind != Plugin || cliPlugin) && !preserveFailed {
          return None;
        }
        return if m.placeholderInitializes then Some(m.placeholder) else None;
      }
    }

    method CreateHostForLeaf(id: LeafId, launch: Launch, isPrimary: bool, preserveFailed: bool, m: HostMaker)
      returns (ok: bool)
      modifies `hosts, `launches, `paneIds, `generations, `nextGeneration, `nextSerial
      ensures (View(), ok) == CreateHost(old(View()), deps, id, launch, isPrimary, preserveFailed, m)
    {
      EnsurePaneId(id);
      hide WithPaneId;
      hide StartsAs;
      var host := MakeHost(launch, isPrimary, preserveFailed, m);
      if host.None? {
        paneIds := paneIds - {id};
        return false;
      }
      Install(id, host.value, launch);
      return true;
    }

    method Install(id: LeafId, host: HostId, launch: Launch)
      modifies `hosts, `launches, `generations, `nextGeneration
      ensures View() == Installed(old(View()), id, host, launch)
    {
      hosts := hosts[id := host];
      generations := generations[id := nextGeneration];
      nextGeneration := nextGeneration + 1;
      launches := launches[id := launch];
    }

    method ClearHosts()
      modifies `hosts, `launches, `generations, `paneIds
      ensures View() == old(View()).(hosts := map[], launches := map[], generations := map[], paneIds := map[])
    {
      hosts, launches, generations, paneIds := map[], map[], map[], map[];
    }

    method ClearRecords()
      modifies `names, `agents, `nextGeneration, `nextSerial
      ensures View() == old(View()).(names := map[], agents := map[], nextGeneration := 1, nextSerial := 1)
    {
      names, agents, nextGeneration, nextSerial := map[], map[], 1, 1;
    }

    method Create(launch: Launch, m: HostMaker) returns (ok: bool)
      modifies this
      ensures (View(), ok) == PaneModel.Create(old(View()), deps, launch, m)
    {
      ClearHosts();
      ClearRecords();
      policies, sessions, tree := map[], map[], Reset();
      hide CreateHost;
      ok := CreateHostForLeaf(0, launch.(ptyCaptureFile := deps.ptyCaptureFile), true, false, m);
    }

    method MoveFocus(id: LeafId)
      modifies `tree, `zoomedLeaf
      ensures View() == UpdateFocus(old(View()), id)
    {
      if tree.focused == id {
        return;
      }
      if zoomed && id != zoomedLeaf && id in hosts {
        zoomedLeaf := id;
      }
      tree := SetFocused(tree, id);
    }

    method SplitFocused(dir: Direction, launch: Launch, m: HostMaker) returns (leaf: LeafId)
      modifies this
      ensures (View(), leaf) == SplitPane(old(View()), deps, dir, launch, m)
    {
      if !deps.allowLocalLayout {
        return INVALID_LEAF;
      }
      if tree.focused == INVALID_LEAF {
        return INVALID_LEAF;
      }
      var (split, added) := SplitLeaf(tree, tree.focused, dir);
      if added == INVALID_LEAF {
        return INVALID_LEAF;
      }
      tree := split;
      var ok := CreateHostForLeaf(added, Completed(launch, deps), false, false, m);
      if !ok {
        tree := CloseLeaf(tree, added).0;
        return INVALID_LEAF;
      }
      MoveFocus(added);
      return added;
    }

    method CloseLeafPane(id: LeafId) returns (ok: bool)
      modifies this
      ensures (View(), ok) == ClosePane(old(View()), deps, id)
    {
      if !deps.allowLocalLayout || |TreeLeaves(tree)| <= 1 || id !in hosts {
        return false;
      }
      DropZoomAndPreview(id);
      EraseHost(id);
      EraseRecords(id);
      var (closed, done) := CloseLeaf(tree, id);
      tree := closed;
      return done;
    }

    /// A zoom ends when its pane goes or one pane remains; a preview ends with
    /// its own pane or its owner's.
    method DropZoomAndPreview(id: LeafId)
      modifies `zoomed, `zoomedLeaf, `previewLeaf, `previewOwner
      ensures var p := old(View());
              var unzoom := p.zoomed && (id == p.zoomedLeaf || |TreeLeaves(p.tree)| <= 2);
              var unpreview := id == p.previewLeaf || id == p.previewOwner;
              View() == p.(zoomed := p.zoomed && !unzoom,
                           zoomedLeaf := if unzoom then INVALID_LEAF else p.zoomedLeaf,
                           previewLeaf := if unpreview then INVALID_LEAF else p.previewLeaf,
                           previewOwner := if unpreview then INVALID_LEAF else p.previewOwner)
    {
      if zoomed && (id == zoomedLeaf || |TreeLeaves(tree)| <= 2) {
        zoomed, zoomedLeaf := false, INVALID_LEAF;
      }
      if id == previewLeaf || id == previewOwner {
        previewLeaf, previewOwner := INVALID_LEAF, INVALID_LEAF;
      }
    }

    method EraseHost(id: LeafId)
      modifies `hosts, `launches, `paneIds, `generations
      ensures View() == old(View()).(hosts := old(hosts) - {id}, launches := old(launches) - {id},
                                     paneIds := old(paneIds) - {id}, generations := old(generations) - {id})
    {
      hosts := hosts - {id};
      launches := launches - {id};
      paneIds := paneIds - {id};
      generations := generations - {id};
    }

    method EraseRecords(id: LeafId)
      modifies `names, `agents, `policies, `sessions
      ensures View() == old(View()).(names := old(names) - {id}, agents := old(agents) - {id},
                                     policies := old(policies) - {id}, sessions := old(sessions) - {id})
    {
      names := names - {id};
      agents := agents - {id};
      policies := policies - {id};
      sessions := sessions - {id};
    }

    method RestartLeaf(id: LeafId, m: HostMaker) returns (ok: bool)
      modifies this
      ensures (View(), ok) == RestartPane(old(View()), deps, id, m)
    {
      if id == INVALID_LEAF || id !in hosts || id !in launches {
        return false;
      }
      var launch := launches[id];
      hosts := hosts - {id};
      ok := CreateHostForLeaf(id, launch, false, true, m);
    }

    method SwapFocusedWithNext() returns (ok: bool)
      modifies `tree
      ensures (View(), ok) == SwapWithNext(old(View()), deps)
    {
      if !deps.allowLocalLayout || tree.focused == INVALID_LEAF {
        return false;
      }
      var next := NextLeafAfter(tree, tree.focused);
      if next == INVALID_LEAF {
        return false;
      }
      var (swapped, done) := SwapLeaves(tree, tree.focused, next);
      tree := swapped;
      return done;
    }

    method Zoom()
      modifies `zoomed, `zoomedLeaf
      ensures View() == ToggleZoom(old(View()))
    {
      if |TreeLeaves(tree)| <= 1 {
        return;
      }
      if zoomed {
        zoomed, zoomedLeaf := false, INVALID_LEAF;
      } else if tree.focused != INVALID_LEAF {
        zoomed, zoomedLeaf := true, tree.focused;
      }
    }

    method ShowMarkdownPreview(owner: LeafId, topRatio: real, path: string, m: HostMaker) returns (leaf: LeafId)
      modifies this
      ensures (View(), leaf) == ShowPreview(old(View()), deps, owner, topRatio, path, m)
    {
      if !deps.allowLocalLayout {
        return INVALID_LEAF;
      }
      if previewLeaf != INVALID_LEAF {
        if previewLeaf in hosts {
          return previewLeaf;
        }
        previewLeaf, previewOwner := INVALID_LEAF, INVALID_LEAF;
      }
      if owner !in hosts {
        return INVALID_LEAF;
      }
      hide SplitOffPreview;
      leaf := SplitOffOwner(owner, topRatio, path, m);
    }

    method SplitOffOwner(owner: LeafId, topRatio: real, path: string, m: HostMaker) returns (leaf: LeafId)
      modifies this
      ensures (View(), leaf) == SplitOffPreview(old(View()), deps, owner, topRatio, path, m)
    {
      hide SplitPane;
      hide UpdateFocus;
      hide SetFocused;
      hide PreviewLaunch;
      var previous := tree.focused;
      tree := SetFocused(tree, owner);
      leaf := SplitFocused(Horizontal, PreviewLaunch(path, if owner in paneIds then paneIds[owner] else ""), m);
      if leaf == INVALID_LEAF {
        MoveFocus(if previous == INVALID_LEAF then owner else previous);
      } else {
        PlacePreview(leaf, owner, topRatio);
      }
    }

    /// Sizes the new pane, remembers it and gives the focus back to its owner.
    method PlacePreview(leaf: LeafId, owner: LeafId, topRatio: real)
      modifies `tree, `zoomedLeaf, `previewLeaf, `previewOwner
      ensures var p := old(View());
              View() == UpdateFocus(p.(tree := SetParentRatio(p.tree, leaf, topRatio), previewLeaf := leaf,
                                       previewOwner := owner), owner)
    {
      hide UpdateFocus;
      tree := SetParentRatio(tree, leaf, topRatio);
      previewLeaf, previewOwner := leaf, owner;
      MoveFocus(owner);
    }

    method HideMarkdownPreview()
      modifies this
      ensures View() == HidePreview(old(View()), deps)
    {
      if !deps.allowLocalLayout || previewLeaf == INVALID_LEAF {
        return;
      }
      var preview, owner := previewLeaf, previewOwner;
      previewLeaf, previewOwner := INVALID_LEAF, INVALID_LEAF;
      var _ := CloseLeafPane(preview);
      if owner != INVALID_LEAF && owner in hosts {
        MoveFocus(owner);
      }
    }

    /// Walks the leaves in spatial order and saves each; gives up at a leaf
    /// without a host or without launch options.
    method SaveLayout(cwd: LeafId -> string) returns (saved: Option<LayoutSnapshot>)
      ensures saved == SnapshotLayout(View(), cwd)
    {
      if |hosts| == 0 || |launches| == 0 {
        return None;
      }
      var ids := TreeLeaves(tree);
      var panes: seq<PaneSnapshot> := [];
      for i := 0 to |ids|
        invariant forall j :: 0 <= j < i ==> ids[j] in launches && ids[j] in hosts
        invariant |panes| == i && forall j :: 0 <= j < i ==> panes[j] == SavePane(View(), ids[j], cwd(ids[j]))
      {
        if ids[i] !in launches || ids[i] !in hosts {
          assert ids[i] in ids;
          return None;
        }
        panes := panes + [SavePane(View(), ids[i], cwd(ids[i]))];
      }
      assert panes == SavePanes(View(), ids, cwd);
      return Some(LayoutSnapshot(tree, panes, zoomed, zoomedLeaf));
    }

    method ShutdownAll()
      modifies this
      ensures View() == Shutdown(old(View()))
    {
      ClearHosts();
      ClearRecords();
      previewLeaf, previewOwner := INVALID_LEAF, INVALID_LEAF;
    }

    method RestoreOne(pane: PaneSnapshot, isPrimary: bool, m: HostMaker) returns (ok: bool)
      modifies this
      ensures (View(), ok) == RestorePane(old(View()), deps, pane, isPrimary, m)
    {
      if pane.leaf !in TreeLeaves(tree) || pane.paneId == "" {
        return false;
      }
      hide CreateHost;
      hide Recorded;
      paneIds := paneIds[pane.leaf := pane.paneId];
      nextSerial := RaisedSerial(nextSerial, pane.paneId);
      ok := CreateHostForLeaf(pane.leaf, RuntimeLaunch(deps, pane), isPrimary, false, m);
      if ok {
        RecordPane(pane);
      }
    }

    method RecordPane(pane: PaneSnapshot)
      modifies `launches, `names, `agents, `policies, `sessions
      ensures View() == Recorded(old(View()), deps, pane)
    {
      hide Completed;
      hide Put;
      launches := launches[pane.leaf := Completed(pane.launch, deps)];
      RecordName(pane);
      RecordAgent(pane);
      RecordSession(pane);
    }

    method RecordName(pane: PaneSnapshot)
      modifies `names
      ensures View() == old(View()).(names :=
                                     Put(old(names), pane.leaf, if pane.name == "" then None else Some(pane.name)))
    {
      if pane.name != "" {
        names := names[pane.leaf := pane.name];
      }
    }

    method RecordAgent(pane: PaneSnapshot)
      modifies `agents, `policies
      ensures View() == old(View()).(agents := Put(old(agents), pane.leaf, pane.agent),
                                     policies := Put(old(policies), pane.leaf,
                                                     if pane.agent.Some? then Some(pane.policy) else None))
    {
      if pane.agent.Some? {
        agents := agents[pane.leaf := pane.agent.value];
        policies := policies[pane.leaf := pane.policy];
      }
    }

    method RecordSession(pane: PaneSnapshot)
      modifies `sessions
      ensures View() == old(View()).(sessions := Put(old(sessions), pane.leaf, pane.session))
    {
      if pane.session.Some? {
        sessions := sessions[pane.leaf := pane.session.value];
      }
    }

    method RestoreSavedLayout(saved: LayoutSnapshot, factory: LeafId -> HostMaker) returns (ok: bool)
      modifies this
      ensures (View(), ok) == RestoreLayout(old(View()), deps, saved, factory)
    {
      hide RestorePanes;
      hide RestoreZoom;
      ShutdownAll();
      var restored := Restore(saved.tree);
      if restored.None? {
        return false;
      }
      tree := restored.value;
      if |saved.panes| == 0 {
        return false;
      }
      ok := RestoreAll(saved.panes, factory);
      if !ok {
        ShutdownAll();
        return false;
      }
      PutZoomBack(saved);
      return true;
    }

    method RestoreAll(panes: seq<PaneSnapshot>, factory: LeafId -> HostMaker) returns (ok: bool)
      modifies this
      ensures (View(), ok) == RestorePanes(old(View()), deps, panes, |panes|, factory)
    {
      hide RestorePane;
      ghost var base := View();
      for i := 0 to |panes|
        invariant RestorePanes(base, deps, panes, i, factory) == (View(), true)
      {
        ok := RestoreOne(panes[i], i == 0, factory(panes[i].leaf));
        if !ok {
          StaysFailed(base, deps, panes, i + 1, factory, View());
          return;
        }
      }
      return true;
    }

    method PutZoomBack(saved: LayoutSnapshot)
      modifies `zoomed, `zoomedLeaf, `tree
      ensures View() == RestoreZoom(old(View()), saved)
    {
      zoomedLeaf := if saved.zoomed && saved.zoomedLeaf in TreeLeaves(tree) then saved.zoomedLeaf else INVALID_LEAF;
      zoomed := zoomedLeaf != INVALID_LEAF;
      if zoomed && tree.focused != zoomedLeaf {
        tree := SetFocused(tree, zoomedLeaf);
      }
    }

    // -------------------------------------------------------------------------
    // Names and agents

    method SetPaneName(id: LeafId, name: string)
      modifies `names
      ensures View() == SetName(old(View()), id, name)
    {
      if name == "" {
        names := names - {id};
      } else {
        names := names[id := name];
      }
    }

    method SetAgentIdentity(id: LeafId, agent: AgentIdentity, policy: RestorePolicy)
      modifies `agents, `policies, `sessions
      ensures View() == SetAgent(old(View()), id, agent, policy)
    {
      if id !in hosts || agent.kind == "" || agent.displayName == "" || agent.instanceId == "" {
        return;
      }
      agents := agents[id := agent];
      policies := policies[id := policy];
      if agent.origin == Discovered {
        sessions := sessions - {id};
      }
    }

    method ClearAgentIdentity(id: LeafId) returns (ok: bool)
      modifies `agents, `policies, `sessions
      ensures View() == ClearAgent(old(View()), id) && ok == (id in old(agents))
    {
      policies := policies - {id};
      sessions := sessions - {id};
      ok := id in agents;
      agents := agents - {id};
    }

    method SetAgentSessionRef(id: LeafId, session: SessionRef, valid: bool) returns (ok: bool)
      modifies `sessions
      ensures (View(), ok) == SetSession(old(View()), id, session, valid)
    {
      if id !in agents || agents[id].origin != Managed || agents[id].kind != session.agentKind || !valid {
        return false;
      }
      if id in sessions && session.sequence <= sessions[id].sequence {
        return false;
      }
      sessions := sessions[id := session];
      return true;
    }

    // -------------------------------------------------------------------------
    // Reconciling with an authoritative layout

    /// Checks a projected layout; touches nothing.
    static method CheckLayout(snap: LayoutSnapshot) returns (ok: bool)
      ensures ok == Accepts(snap)
    {
      hide Restore;
      hide TreeLeaves;
      AcceptsShape(snap);
      hide Accepts;
      if snap.tree.root.None? || |snap.panes| == 0 || Restore(snap.tree).None? {
        return false;
      }
      var panes := snap.panes;
      var leaves: set<LeafId>, ids: set<string> := {}, {};
      for i := 0 to |panes|
        invariant forall id :: id in leaves <==> exists j :: 0 <= j < i && panes[j].leaf == id
        invariant forall id :: id in ids <==> exists j :: 0 <= j < i && panes[j].paneId == id
        invariant forall j :: 0 <= j < i ==> panes[j].leaf != INVALID_LEAF && panes[j].paneId != ""
        invariant forall j, k :: 0 <= j < k < i ==> panes[j].leaf != panes[k].leaf && panes[j].paneId != panes[k].paneId
      {
        var pane := panes[i];
        if pane.leaf == INVALID_LEAF || pane.leaf in leaves || pane.paneId == "" || pane.paneId in ids {
          Repeated(snap, i);
          return false;
        }
        leaves, ids := leaves + {pane.leaf}, ids + {pane.paneId};
      }
      Checked(snap, leaves);
      return (forall id :: id in TreeLeaves(snap.tree) ==> id in leaves) && |TreeLeaves(snap.tree)| == |panes|;
    }

    /// Follows the new source of kept Markdown hosts; collects the leaves whose
    /// host is gone or has become a different one.
    method FollowSources(snap: LayoutSnapshot) returns (removed: set<LeafId>)
      requires Backed(View())
      modifies `launches
      ensures removed == hosts.Keys - KeptLeaves(old(View()), snap)
      ensures View() == old(View()).(launches := launches) && launches - removed == SourcedLaunches(old(View()), snap)
    {
      hide Injective;
      hide SameHost;
      ghost var p := View();
      var wanted := ByLeaf(snap.panes);
      var todo := hosts.Keys;
      removed := {};
      while todo != {}
        invariant todo <= p.hosts.Keys && launches.Keys == p.launches.Keys
        invariant removed == (p.hosts.Keys - todo) - KeptLeaves(p, snap)
        invariant forall id :: id in launches ==>
          launches[id] == if id !in todo && Kept(p, snap, id) then Sourced(p.launches[id], wanted[id].launch)
            else p.launches[id]
        decreases todo
      {
        NonEmpty(todo);
        var leaf :| leaf in todo;
        KeptMeansLive(p, snap, leaf);
        todo := todo - {leaf};
        if leaf !in wanted || leaf !in launches || !SameHost(launches[leaf], wanted[leaf].launch) {
          removed := removed + {leaf};
        } else {
          launches := launches[leaf := Sourced(launches[leaf], wanted[leaf].launch)];
        }
      }
    }

    /// Follows sources, then drops the collected hosts and takes the new tree.
    method StripHosts(snap: LayoutSnapshot)
      requires Restore(snap.tree).Some? && Backed(View())
      modifies this
      ensures View() == Followers(old(View()), snap)
    {
      hide Restore;
      hide KeptLeaves;
      hide SourcedLaunches;
      hide Backed;
      var removed := FollowSources(snap);
      DropHosts(removed);
      DropRecords(removed);
      TakeTree(Restore(snap.tree).value);
    }

    /// A new tree starts without zoom and without preview.
    method TakeTree(taken: SplitTree)
      modifies `tree, `zoomed, `zoomedLeaf, `previewLeaf, `previewOwner
      ensures View() == old(View()).(tree := taken, zoomed := false, zoomedLeaf := INVALID_LEAF,
                                     previewLeaf := INVALID_LEAF, previewOwner := INVALID_LEAF)
    {
      tree := taken;
      zoomed, zoomedLeaf := false, INVALID_LEAF;
      previewLeaf, previewOwner := INVALID_LEAF, INVALID_LEAF;
    }

    method DropHosts(ids: set<LeafId>)
      modifies `hosts, `launches, `paneIds, `generations
      ensures View() == old(View()).(hosts := old(hosts) - ids, launches := old(launches) - ids,
                                     paneIds := old(paneIds) - ids, generations := old(generations) - ids)
    {
      hosts := hosts - ids;
      launches := launches - ids;
      paneIds := paneIds - ids;
      generations := generations - ids;
    }

    method DropRecords(ids: set<LeafId>)
      modifies `names, `agents, `policies, `sessions
      ensures View() == old(View()).(names := old(names) - ids, agents := old(agents) - ids,
                                     policies := old(policies) - ids, sessions := old(sessions) - ids)
    {
      names := names - ids;
      agents := agents - ids;
      policies := policies - ids;
      sessions := sessions - ids;
    }

    method ApplyOne(pane: PaneSnapshot, m: HostMaker) returns (ok: bool)
      requires pane.leaf in hosts ==> pane.leaf in launches
      modifies this
      ensures (View(), ok) == ApplyLeaf(old(View()), deps, pane, |old(hosts)| == 0, m)
    {
      paneIds := paneIds[pane.leaf := pane.paneId];
      names := if pane.name == "" then names - {pane.leaf} else names[pane.leaf := pane.name];
      if pane.leaf in hosts {
        launches := launches[pane.leaf := launches[pane.leaf].(companionOwner := pane.launch.companionOwner)];
        return true;
      }
      hide CreateHost;
      ok := CreateHostForLeaf(pane.leaf, Completed(pane.launch, deps), |hosts| == 0, false, m);
    }

    /// Visits the projected panes in some order and applies each.
    method ApplyPanes(snap: LayoutSnapshot, factory: LeafId -> HostMaker, ghost p: Panes) returns (ok: bool)
      requires Restore(snap.tree).Some? && Progress(p, deps, snap, factory, View(), {})
      modifies this
      ensures Frame(p, snap, View())
      ensures ok ==> Progress(p, deps, snap, factory, View(), ByLeaf(snap.panes).Keys)
      ensures !ok ==> SomeHostFails(p, deps, snap, factory) && Stuck(p, deps, snap, factory, View())
    {
      hide Restore;
      hide ApplyLeaf;
      hide LeafApplied;
      hide LeafPending;
      hide Counted;
      hide Frame;
      var wanted := ByLeaf(snap.panes);
      var todo := wanted.Keys;
      ghost var done: set<LeafId> := {};
      while todo != {}
        invariant todo <= wanted.Keys && done == wanted.Keys - todo
        invariant Progress(p, deps, snap, factory, View(), done)
        decreases todo
      {
        NonEmpty(todo);
        var leaf :| leaf in todo;
        ProgressStep(p, deps, snap, factory, View(), done, leaf, |hosts| == 0);
        ghost var before, first := View(), |hosts| == 0;
        ok := ApplyOne(wanted[leaf], factory(leaf));
        if !ok {
          TurnFails(p, deps, snap, factory, before, done, leaf, first);
          assert StuckAt(p, deps, snap, factory, before, done, leaf, first, View());
          return;
        }
        todo, done := todo - {leaf}, done + {leaf};
      }
      assert done == wanted.Keys;
      return true;
    }

    /// Some Markdown pane whose companion owner is present, with the owner.
    method LocatePreview(snap: LayoutSnapshot) returns (leaf: LeafId, owner: LeafId)
      requires Accepts(snap)
      ensures if leaf == INVALID_LEAF then owner == INVALID_LEAF && forall l, o :: !IsPreviewOf(View(), snap, l, o)
              else IsPreviewOf(View(), snap, leaf, owner)
    {
      AcceptedLeavesValid(snap);
      hide Accepts;
      hide ByLeaf;
      var wanted := ByLeaf(snap.panes);
      var todo := wanted.Keys;
      while todo != {}
        invariant todo <= wanted.Keys && INVALID_LEAF !in wanted
        invariant forall l, o :: l !in todo ==> !IsPreviewOf(View(), snap, l, o)
        decreases todo
      {
        NonEmpty(todo);
        leaf :| leaf in todo;
        var owners := set o | o in paneIds && paneIds[o] == wanted[leaf].launch.companionOwner;
        if wanted[leaf].launch.kind == Markdown && wanted[leaf].launch.companionOwner != "" && owners != {} {
          NonEmpty(owners);
          owner :| owner in owners;
          return;
        }
        assert forall o :: IsPreviewOf(View(), snap, leaf, o) ==> o in owners;
        todo := todo - {leaf};
      }
      return INVALID_LEAF, INVALID_LEAF;
    }

    /// Takes that pane as the preview.
    method FindPreview(snap: LayoutSnapshot)
      requires previewLeaf == INVALID_LEAF && previewOwner == INVALID_LEAF && Accepts(snap)
      modifies `previewLeaf, `previewOwner
      ensures View() == old(View()).(previewLeaf := previewLeaf, previewOwner := previewOwner)
      ensures if previewLeaf == INVALID_LEAF then previewOwner == INVALID_LEAF && forall l, o ::
                !IsPreviewOf(View(), snap, l, o)
              else IsPreviewOf(View(), snap, previewLeaf, previewOwner)
    {
      hide Accepts;
      hide ByLeaf;
      ghost var before := View();
      var leaf, owner := LocatePreview(snap);
      previewLeaf, previewOwner := leaf, owner;
      PreviewByIds(before, View(), snap);
      hide IsPreviewOf;
    }

    /// Applies an authoritative layout to live panes. A rejected layout changes
    /// nothing; it fails only when a host cannot start, and then the layout saved at
    /// entry is put back, if there was one to save.
    method ReconcileProjectedLayout(snap: LayoutSnapshot, factory: LeafId -> HostMaker, cwd: LeafId -> string,
                                    again: LeafId -> HostMaker)
      returns (ok: bool)
      requires Backed(View())
      modifies this
      ensures Reconciled(old(View()), deps, snap, factory, cwd, again, View(), ok)
    {
      hide Applied;
      hide Backed;
      hide SnapshotLayout;
      hide RestoreLayout;
      hide Stripped;
      hide Followers;
      hide Stuck;
      hide SomeHostFails;
      ok := CheckLayout(snap);
      if !ok {
        return;
      }
      ghost var p := View();
      AcceptedRestores(snap);
      ProgressStart(p, deps, snap, factory);
      hide Accepts;
      hide Restore;
      hide Progress;
      hide Frame;
      var backup := SaveLayout(cwd);
      StripHosts(snap);
      ok := ApplyPanes(snap, factory, p);
      if !ok {
        if backup.Some? {
          RestoreFromFrame(p, deps, snap, View(), backup.value, again);
          var _ := RestoreSavedLayout(backup.value, again);
        }
        return;
      }
      ghost var q := View();
      NoPreviewYet(p, snap, q);
      FindPreview(snap);
      ProgressDone(p, deps, snap, factory, q, View());
    }
  }

  lemma NonEmpty(s: set<LeafId>)
    ensures s == {} || exists id :: id in s
  {
    if forall id :: id !in s {
      assert s == {};
    }
  }

  lemma NoPreviewYet(p: Panes, snap: LayoutSnapshot, q: Panes)
    requires Restore(snap.tree).Some? && Frame(p, snap, q)
    ensures q.previewLeaf == INVALID_LEAF && q.previewOwner == INVALID_LEAF
  {
    hide Restore;
    hide KeptLeaves;
  }

  lemma PreviewByIds(p: Panes, q: Panes, snap: LayoutSnapshot)
    requires q.paneIds == p.paneIds
    ensures forall l, o :: IsPreviewOf(q, snap, l, o) <==> IsPreviewOf(p, snap, l, o)
  {}

  lemma AcceptedLeavesValid(snap: LayoutSnapshot)
    requires Accepts(snap)
    ensures INVALID_LEAF !in ByLeaf(snap.panes)
  {}

  lemma LeafListed(panes: seq<PaneSnapshot>, id: LeafId)
    ensures id in ByLeaf(panes) <==> exists j :: 0 <= j < |panes| && panes[j].leaf == id
  {
    if id in ByLeaf(panes) {
      var j :| 0 <= j < |panes| && panes[j] == ByLeaf(panes)[id];
    }
    if exists j :: 0 <= j < |panes| && panes[j].leaf == id {
      var j :| 0 <= j < |panes| && panes[j].leaf == id;
      assert panes[j] in panes;
    }
  }

  lemma AcceptsShape(snap: LayoutSnapshot)
    ensures Accepts(snap) ==> snap.tree.root.Some? && |snap.panes| > 0 && Restore(snap.tree).Some?
  {}

  /// With well-formed panes that do not repeat, only the match with the tree is left to check.
  lemma Checked(snap: LayoutSnapshot, leaves: set<LeafId>)
    requires snap.tree.root.Some? && |snap.panes| > 0 && Restore(snap.tree).Some?
    requires forall id :: id in leaves <==> exists j :: 0 <= j < |snap.panes| && snap.panes[j].leaf == id
    requires forall j :: 0 <= j < |snap.panes| ==> snap.panes[j].leaf != INVALID_LEAF && snap.panes[j].paneId != ""
    requires forall j, k :: 0 <= j < k < |snap.panes| ==>
               snap.panes[j].leaf != snap.panes[k].leaf && snap.panes[j].paneId != snap.panes[k].paneId
    ensures Accepts(snap) <==>
              (forall id :: id in TreeLeaves(snap.tree) ==> id in leaves) && |TreeLeaves(snap.tree)| == |snap.panes|
  {
    hide Restore;
    hide TreeLeaves;
    forall id ensures id in leaves <==> id in ByLeaf(snap.panes) {
      LeafListed(snap.panes, id);
    }
  }

  /// A pane that is malformed or repeats an earlier one.
  lemma Repeated(snap: LayoutSnapshot, i: nat)
    requires i < |snap.panes|
    requires || snap.panes[i].leaf == INVALID_LEAF || snap.panes[i].paneId == ""
             || (exists j :: 0 <= j < i && snap.panes[j].leaf == snap.panes[i].leaf)
             || (exists j :: 0 <= j < i && snap.panes[j].paneId == snap.panes[i].paneId)
    ensures !Accepts(snap)
  {
    if exists j :: 0 <= j < i && snap.panes[j].leaf == snap.panes[i].leaf {
      var j :| 0 <= j < i && snap.panes[j].leaf == snap.panes[i].leaf;
      assert LeavesOf(snap.panes)[j] == LeavesOf(snap.panes)[i];
    } else if exists j :: 0 <= j < i && snap.panes[j].paneId == snap.panes[i].paneId {
      var j :| 0 <= j < i && snap.panes[j].paneId == snap.panes[i].paneId;
      assert IdsOf(snap.panes)[j] == IdsOf(snap.panes)[i];
    }
  }

  /// A restore that failed at pane k has failed as a whole, in the same state.
  lemma {:induction false} StaysFailed(base: Panes, deps: Deps, panes: seq<PaneSnapshot>, k: nat,
                                       factory: LeafId -> HostMaker, p: Panes)
    requires k <= |panes| && RestorePanes(base, deps, panes, k, factory) == (p, false)
    ensures RestorePanes(base, deps, panes, |panes|, factory) == (p, false)
    decreases |panes| - k
  {
    hide RestorePane;
    if k < |panes| {
      StaysFailed(base, deps, panes, k + 1, factory, p);
    }
  }
}
