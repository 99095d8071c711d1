/** The state of one tab's panes and what every operation of the pane manager
    does to it. Hosts are opaque objects, named by the factory that makes them;
    environment variables, viewports and host callbacks are not modelled. */
module PaneModel {
  import opened Identifiers
  import opened SplitTrees
  import opened PaneNames

  datatype HostKind =
    | Nvim | PowerShell | Bash | Zsh | Wsl | RemoteTerminal
    | NanoVGDemo | Markdown | Kanban | PersonalAssistant | Plugin

  predicate IsServerOwnedShell(k: HostKind) {
    k in {PowerShell, Bash, Zsh, Wsl, RemoteTerminal}
  }

  /// The identity of a host object.
  type HostId = nat

  datatype Launch = Launch(
    kind: HostKind, command: string, args: seq<string>, workingDir: string,
    sourcePath: string, startupCommands: seq<string>, remoteTerminalId: string,
    clientHostKind: string, clientPluginId: string, clientPluginConfig: string,
    companionOwner: string, ptyCaptureFile: string)

  datatype Origin = Managed | Discovered
  datatype AgentIdentity = AgentIdentity(
    profileId: string, kind: string, displayName: string, instanceId: string, origin: Origin)

  datatype SessionRefKind = RefId | RefPath
  datatype SessionRef = SessionRef(
    source: string, agentKind: string, integrationVersion: nat, sequence: nat,
    kind: SessionRefKind, value: string)

  datatype RestorePolicy = FreshStart | ResumeIfAvailable | ShellOnly

  /// What the surrounding application supplies to a pane manager.
  datatype Deps = Deps(
    allowLocalLayout: bool, defaultWorkingDir: string, hostWorkingDir: string,
    ptyCaptureFile: string, resumeOnRestore: bool,
    primaryKind: HostKind, primaryCommand: string, primaryArgs: seq<string>,
    primaryStartup: seq<string>, kindExplicit: bool, platformShell: HostKind,
    knownHostKinds: set<string>, officialSources: set<(string, string)>)

  /// What happens when a host is asked for: the object the provider yields, if
  /// any, whether it initializes, and the same for the placeholder host.
  datatype HostMaker = HostMaker(
    provider: Option<HostId>, initializes: bool,
    placeholder: HostId, placeholderInitializes: bool)

  datatype Panes = Panes(
    tree: SplitTree,
    hosts: map<LeafId, HostId>,
    launches: map<LeafId, Launch>,
    names: map<LeafId, string>,
    paneIds: map<LeafId, string>,
    agents: map<LeafId, AgentIdentity>,
    policies: map<LeafId, RestorePolicy>,
    sessions: map<LeafId, SessionRef>,
    generations: map<LeafId, nat>,
    nextGeneration: nat,
    nextSerial: nat,
    zoomed: bool, zoomedLeaf: LeafId,
    previewLeaf: LeafId, previewOwner: LeafId)

  const NO_PANES := Panes(EMPTY, map[], map[], map[], map[], map[], map[], map[], map[], 1, 1,
                          false, INVALID_LEAF, INVALID_LEAF, INVALID_LEAF)

  // ---------------------------------------------------------------------------
  // Making a host for a leaf

  predicate ProjectsClientHost(launch: Launch) {
    launch.clientHostKind != "" && launch.clientHostKind != "platform_default"
  }

  /// The host object a leaf ends up with; None when the leaf gets no host.
  function StartsAs(deps: Deps, launch: Launch, isPrimary: bool, preserveFailed: bool, m: HostMaker): Option<HostId> {
    var placeholder := if m.placeholderInitializes then Some(m.placeholder) else None;
    var strict := launch.kind != Plugin || (isPrimary && deps.kindExplicit && deps.primaryKind == Plugin);
    if (ProjectsClientHost(launch) && launch.clientHostKind !in deps.knownHostKinds)
       || (m.provider.None? && ProjectsClientHost(launch)) then
      if m.placeholderInitializes then placeholder
      else None
    else if m.provider.None? then
      if preserveFailed then placeholder else None
    else if m.initializes then m.provider
    else if strict && !preserveFailed then None
    else placeholder
  }

  function WithPaneId(p: Panes, id: LeafId): Panes {
    if id in p.paneIds then p
    else
      var serial := FreshSerial(p.paneIds.Values, p.nextSerial);
      p.(paneIds := p.paneIds[id := PaneName(serial)], nextSerial := serial + 1)
  }

  function Installed(p: Panes, id: LeafId, host: HostId, launch: Launch): Panes {
    p.(hosts := p.hosts[id := host],
       generations := p.generations[id := p.nextGeneration],
       nextGeneration := p.nextGeneration + 1,
       launches := p.launches[id := launch])
  }

  function CreateHost(p: Panes, deps: Deps, id: LeafId, launch: Launch, isPrimary: bool,
                      preserveFailed: bool, m: HostMaker): (Panes, bool)
  {
    var p1 := WithPaneId(p, id);
    match StartsAs(deps, launch, isPrimary, preserveFailed, m)
    case None => (p1.(paneIds := p1.paneIds - {id}), false)
    case Some(host) => (Installed(p1, id, host, launch), true)
  }

  function DefaultDir(deps: Deps): string {
    if deps.defaultWorkingDir == "" then deps.hostWorkingDir else deps.defaultWorkingDir
  }

  /// Launch options after the application-wide settings are applied.
  function Completed(launch: Launch, deps: Deps): Launch {
    launch.(ptyCaptureFile := deps.ptyCaptureFile,
            workingDir := if launch.workingDir == "" then DefaultDir(deps) else launch.workingDir)
  }

  /// A manager's panes after creating its primary host in a tree of one leaf.
  function Create(p: Panes, deps: Deps, launch: Launch, m: HostMaker): (Panes, bool) {
    CreateHost(NO_PANES.(tree := Reset(), zoomed := p.zoomed, zoomedLeaf := p.zoomedLeaf,
                         previewLeaf := p.previewLeaf, previewOwner := p.previewOwner),
               deps, 0, launch.(ptyCaptureFile := deps.ptyCaptureFile), true, false, m)
  }

  // ---------------------------------------------------------------------------
  // Focus and zoom

  /// Explicit focus moves carry the zoom with them.
  function UpdateFocus(p: Panes, id: LeafId): Panes {
    if p.tree.focused == id then p
    else
      p.(zoomedLeaf := if p.zoomed && id in p.hosts then id else p.zoomedLeaf,
         tree := SetFocused(p.tree, id))
  }

  function ToggleZoom(p: Panes): Panes {
    if |TreeLeaves(p.tree)| <= 1 then p
    else if p.zoomed then p.(zoomed := false, zoomedLeaf := INVALID_LEAF)
    else if p.tree.focused == INVALID_LEAF then p
    else p.(zoomed := true, zoomedLeaf := p.tree.focused)
  }

  // ---------------------------------------------------------------------------
  // Split, close, restart, swap

  function SplitPane(p: Panes, deps: Deps, dir: Direction, launch: Launch, m: HostMaker): (Panes, LeafId) {
    if !deps.allowLocalLayout || p.tree.focused == INVALID_LEAF then (p, INVALID_LEAF)
    else
      var (tree, leaf) := SplitLeaf(p.tree, p.tree.focused, dir);
      if leaf == INVALID_LEAF then (p, INVALID_LEAF)
      else
        var (p1, ok) := CreateHost(p.(tree := tree), deps, leaf, Completed(launch, deps), false, false, m);
        if ok then (UpdateFocus(p1, leaf), leaf)
        else (p1.(tree := CloseLeaf(tree, leaf).0), INVALID_LEAF)
  }

  /// The launch used when a split names no host.
  function SplitLaunch(deps: Deps): Launch {
    var shell := IsServerOwnedShell(deps.primaryKind);
    Launch(if shell then deps.primaryKind else deps.platformShell,
           if shell then deps.primaryCommand else "", if shell then deps.primaryArgs else [],
           "", "", if shell then deps.primaryStartup else [], "", "", "", "", "", "")
  }

  /// Forgets everything recorded for a leaf.
  function Forget(p: Panes, ids: set<LeafId>): Panes {
    p.(hosts := p.hosts - ids, launches := p.launches - ids, names := p.names - ids,
       paneIds := p.paneIds - ids, agents := p.agents - ids, policies := p.policies - ids,
       sessions := p.sessions - ids, generations := p.generations - ids)
  }

  function ClosePane(p: Panes, deps: Deps, id: LeafId): (Panes, bool) {
    if !deps.allowLocalLayout || |TreeLeaves(p.tree)| <= 1 || id !in p.hosts then (p, false)
    else
      var unzoom := p.zoomed && (id == p.zoomedLeaf || |TreeLeaves(p.tree)| <= 2);
      var unpreview := id == p.previewLeaf || id == p.previewOwner;
      var (tree, ok) := CloseLeaf(p.tree, id);
      (Forget(p, {id}).(tree := tree,
                        zoomed := p.zoomed && !unzoom,
                        zoomedLeaf := if unzoom then INVALID_LEAF else p.zoomedLeaf,
                        previewLeaf := if unpreview then INVALID_LEAF else p.previewLeaf,
                        previewOwner := if unpreview then INVALID_LEAF else p.previewOwner), ok)
  }

  function RestartPane(p: Panes, deps: Deps, id: LeafId, m: HostMaker): (Panes, bool) {
    if id == INVALID_LEAF || id !in p.hosts || id !in p.launches then (p, false)
    else CreateHost(p.(hosts := p.hosts - {id}), deps, id, p.launches[id], false, true, m)
  }

  function SwapWithNext(p: Panes, deps: Deps): (Panes, bool) {
    var next := NextLeafAfter(p.tree, p.tree.focused);
    if !deps.allowLocalLayout || p.tree.focused == INVALID_LEAF || next == INVALID_LEAF then (p, false)
    else
      var (tree, ok) := SwapLeaves(p.tree, p.tree.focused, next);
      (p.(tree := tree), ok)
  }

  // ---------------------------------------------------------------------------
  // Names and agents

  /// Names a pane, or takes its name away when it is empty. A leaf without a host
  /// can be named too.
  function SetName(p: Panes, id: LeafId, name: string): Panes {
    p.(names := if name == "" then p.names - {id} else p.names[id := name])
  }

  /// Records an agent for a hosted pane; a discovered one has no session to resume.
  function SetAgent(p: Panes, id: LeafId, agent: AgentIdentity, policy: RestorePolicy): Panes {
    if id !in p.hosts || agent.kind == "" || agent.displayName == "" || agent.instanceId == "" then p
    else p.(agents := p.agents[id := agent], policies := p.policies[id := policy],
            sessions := if agent.origin == Discovered then p.sessions - {id} else p.sessions)
  }

  function ClearAgent(p: Panes, id: LeafId): Panes {
    p.(agents := p.agents - {id}, policies := p.policies - {id}, sessions := p.sessions - {id})
  }

  /// Records a valid session of a managed agent of the same kind, if it is newer.
  function SetSession(p: Panes, id: LeafId, session: SessionRef, valid: bool): (Panes, bool) {
    if id !in p.agents || p.agents[id].origin != Managed || p.agents[id].kind != session.agentKind || !valid
       || (id in p.sessions && session.sequence <= p.sessions[id].sequence) then (p, false)
    else (p.(sessions := p.sessions[id := session]), true)
  }

  // ---------------------------------------------------------------------------
  // The companion preview

  function PreviewLaunch(path: string, ownerPaneId: string): Launch {
    Launch(Markdown, "", [], "", path, [], "", "", "", "", ownerPaneId, "")
  }

  /// A preview whose pane is gone is forgotten.
  function PreviewChecked(p: Panes): Panes {
    if p.previewLeaf == INVALID_LEAF then p else p.(previewLeaf := INVALID_LEAF, previewOwner := INVALID_LEAF)
  }

  /// Splits the preview off its owner and gives the focus to the owner, or back.
  function SplitOffPreview(p: Panes, deps: Deps, owner: LeafId, topRatio: real, path: string,
                           m: HostMaker): (Panes, LeafId) {
    var launch := PreviewLaunch(path, if owner in p.paneIds then p.paneIds[owner] else "");
    var (p1, leaf) := SplitPane(p.(tree := SetFocused(p.tree, owner)), deps, Horizontal, launch, m);
    if leaf == INVALID_LEAF then
      (UpdateFocus(p1, if p.tree.focused == INVALID_LEAF then owner else p.tree.focused), INVALID_LEAF)
    else
      (UpdateFocus(p1.(tree := SetParentRatio(p1.tree, leaf, topRatio), previewLeaf := leaf, previewOwner := owner),
                   owner), leaf)
  }

  function ShowPreview(p: Panes, deps: Deps, owner: LeafId, topRatio: real, path: string,
                       m: HostMaker): (Panes, LeafId) {
    if !deps.allowLocalLayout then (p, INVALID_LEAF)
    else if p.previewLeaf != INVALID_LEAF && p.previewLeaf in p.hosts then (p, p.previewLeaf)
    else if owner !in p.hosts then (PreviewChecked(p), INVALID_LEAF)
    else SplitOffPreview(PreviewChecked(p), deps, owner, topRatio, path, m)
  }

  function HidePreview(p: Panes, deps: Deps): Panes {
    if !deps.allowLocalLayout || p.previewLeaf == INVALID_LEAF then p
    else
      var p1 := ClosePane(p.(previewLeaf := INVALID_LEAF, previewOwner := INVALID_LEAF), deps, p.previewLeaf).0;
      if p.previewOwner != INVALID_LEAF && p.previewOwner in p1.hosts then UpdateFocus(p1, p.previewOwner) else p1
  }

  // ---------------------------------------------------------------------------
  // Saving and restoring a layout

  datatype PaneSnapshot = PaneSnapshot(
    leaf: LeafId, launch: Launch, name: string, paneId: string,
    agent: Option<AgentIdentity>, session: Option<SessionRef>, policy: RestorePolicy)

  datatype LayoutSnapshot = LayoutSnapshot(
    tree: SplitTree, panes: seq<PaneSnapshot>, zoomed: bool, zoomedLeaf: LeafId)

  function Lookup<V>(m: map<LeafId, V>, id: LeafId): Option<V> {
    if id in m then Some(m[id]) else None
  }

  /// Records a value, if there is one.
  function Put<V>(m: map<LeafId, V>, id: LeafId, v: Option<V>): (r: map<LeafId, V>)
    ensures forall x :: x != id ==> Lookup(r, x) == Lookup(m, x)
    ensures Lookup(r, id) == (if v.Some? then v else Lookup(m, id))
    ensures r.Keys <= m.Keys + {id}
  {
    if v.Some? then m[id := v.value] else m
  }

  function Text(m: map<LeafId, string>, id: LeafId): string {
    if id in m then m[id] else ""
  }

  /// One pane as saved; cwd is the directory its host reports, "" for none.
  function SavePane(p: Panes, id: LeafId, cwd: string): PaneSnapshot
    requires id in p.launches
  {
    PaneSnapshot(
      id,
      if cwd == "" then p.launches[id] else p.launches[id].(workingDir := cwd),
      Text(p.names, id), Text(p.paneIds, id),
      if id in p.agents && p.agents[id].origin == Managed then Some(p.agents[id]) else None,
      Lookup(p.sessions, id),
      if id in p.policies then p.policies[id] else ResumeIfAvailable)
  }

  function SavePanes(p: Panes, ids: seq<LeafId>, cwd: LeafId -> string): seq<PaneSnapshot>
    requires forall id :: id in ids ==> id in p.launches
  {
    seq(|ids|, i requires 0 <= i < |ids| => SavePane(p, ids[i], cwd(ids[i])))
  }

  function SnapshotLayout(p: Panes, cwd: LeafId -> string): Option<LayoutSnapshot> {
    var ids := TreeLeaves(p.tree);
    if |p.hosts| == 0 || |p.launches| == 0 || !(forall id :: id in ids ==> id in p.launches && id in p.hosts) then None
    else Some(LayoutSnapshot(p.tree, SavePanes(p, ids, cwd), p.zoomed, p.zoomedLeaf))
  }

  function Shutdown(p: Panes): Panes {
    p.(hosts := map[], launches := map[], names := map[], paneIds := map[], agents := map[],
       generations := map[], nextGeneration := 1, nextSerial := 1,
       previewLeaf := INVALID_LEAF, previewOwner := INVALID_LEAF)
  }

  predicate Resumes(deps: Deps, pane: PaneSnapshot) {
    && deps.resumeOnRestore && pane.policy == ResumeIfAvailable
    && pane.agent.Some? && pane.session.Some? && pane.session.value.kind == RefId
    && (pane.session.value.source, pane.agent.value.kind) in deps.officialSources
  }

  /// What the host of a restored pane is actually started with.
  function RuntimeLaunch(deps: Deps, pane: PaneSnapshot): Launch {
    var launch := Completed(pane.launch, deps);
    if pane.agent.None? then launch
    else if pane.policy == ShellOnly then launch.(command := "", args := [], startupCommands := [])
    else if Resumes(deps, pane) then
      launch.(args := if pane.agent.value.kind == "codex" then ["resume", pane.session.value.value]
                      else ["--resume", pane.session.value.value],
              startupCommands := [])
    else launch
  }

  function RaisedSerial(next: nat, paneId: string): nat {
    match ParsePaneName(paneId)
    case Some(v) => if next < v + 1 then v + 1 else next
    case None => next
  }

  /// A pane about to be restored has its stable id back.
  function Identified(p: Panes, pane: PaneSnapshot): Panes {
    p.(paneIds := p.paneIds[pane.leaf := pane.paneId], nextSerial := RaisedSerial(p.nextSerial, pane.paneId))
  }

  /// What is recorded for a restored pane; the launch kept for later saves is the
  /// persisted one.
  function Recorded(p: Panes, deps: Deps, pane: PaneSnapshot): Panes {
    p.(launches := p.launches[pane.leaf := Completed(pane.launch, deps)],
       names := Put(p.names, pane.leaf, if pane.name == "" then None else Some(pane.name)),
       agents := Put(p.agents, pane.leaf, pane.agent),
       policies := Put(p.policies, pane.leaf, if pane.agent.Some? then Some(pane.policy) else None),
       sessions := Put(p.sessions, pane.leaf, pane.session))
  }

  /// Restores one pane.
  function RestorePane(p: Panes, deps: Deps, pane: PaneSnapshot, isPrimary: bool, m: HostMaker): (Panes, bool) {
    if pane.leaf !in TreeLeaves(p.tree) || pane.paneId == "" then (p, false)
    else
      var (q, ok) := CreateHost(Identified(p, pane), deps, pane.leaf, RuntimeLaunch(deps, pane), isPrimary, false, m);
      if ok then (Recorded(q, deps, pane), true) else (q, false)
  }

  /// Restores the first k panes in order, stopping at the first failure.
  function RestorePanes(p: Panes, deps: Deps, panes: seq<PaneSnapshot>, k: nat,
                        factory: LeafId -> HostMaker): (Panes, bool)
    requires k <= |panes|
  {
    if k == 0 then (p, true)
    else
      var (p1, ok) := RestorePanes(p, deps, panes, k - 1, factory);
      if !ok then (p1, false)
      else RestorePane(p1, deps, panes[k - 1], k - 1 == 0, factory(panes[k - 1].leaf))
  }

  function RestoreZoom(p: Panes, saved: LayoutSnapshot): Panes {
    if saved.zoomed && saved.zoomedLeaf in TreeLeaves(p.tree) && saved.zoomedLeaf != INVALID_LEAF then
      p.(zoomed := true, zoomedLeaf := saved.zoomedLeaf, tree := SetFocused(p.tree, saved.zoomedLeaf))
    else p.(zoomed := false, zoomedLeaf := INVALID_LEAF)
  }

  function RestoreLayout(p: Panes, deps: Deps, saved: LayoutSnapshot, factory: LeafId -> HostMaker): (Panes, bool) {
    var p0 := Shutdown(p);
    match Restore(saved.tree)
    case None => (p0, false)
    case Some(tree) =>
      var p1 := p0.(tree := tree);
      if |saved.panes| == 0 then (p1, false)
      else
        var (p2, ok) := RestorePanes(p1, deps, saved.panes, |saved.panes|, factory);
        if !ok then (Shutdown(p2), false) else (RestoreZoom(p2, saved), true)
  }
}
