/** Which host a leaf gets, said of the launch and of what the factory yields: when a
    placeholder stands in for a host that does not start, and when the leaf gets none. */
module PaneHosts {
  import opened Identifiers
  import opened SplitTrees
  import opened PaneNames
  import opened PaneModel
  import opened PaneInvariants
  import opened PaneRoundTrip
  import opened PaneReconcile

  /// A client host this build does not know.
  ghost predicate UnknownClient(deps: Deps, launch: Launch) {
    launch.clientHostKind !in {"", "platform_default"} && launch.clientHostKind !in deps.knownHostKinds
  }

  ghost predicate Provided(deps: Deps, launch: Launch, m: HostMaker, host: HostId) {
    !UnknownClient(deps, launch) && m.provider == Some(host) && m.initializes
  }

  /// The failures a placeholder covers: a client host that is unknown or has no
  /// provider, a plugin that does not initialize unless it was asked for on the command
  /// line, and whatever fails in a leaf that must not be lost.
  ghost predicate Covered(deps: Deps, launch: Launch, primary: bool, preserve: bool, m: HostMaker) {
    if UnknownClient(deps, launch) then true
    else if m.provider.None? then preserve || launch.clientHostKind !in {"", "platform_default"}
    else
      && !m.initializes
      && (preserve || (launch.kind == Plugin && !(primary && deps.kindExplicit && deps.primaryKind == Plugin)))
  }

  /// Exactly these hosts can be made: the provider's if it initializes, and the
  /// placeholder if it initializes itself and covers the failure.
  lemma StartsExactly(deps: Deps, launch: Launch, primary: bool, preserve: bool, m: HostMaker, host: HostId)
    ensures StartsAs(deps, launch, primary, preserve, m) == Some(host) <==>
              || Provided(deps, launch, m, host)
              || (Covered(deps, launch, primary, preserve, m) && m.placeholderInitializes && m.placeholder == host)
  {}

  // ---------------------------------------------------------------------------
  // Making a host

  lemma CreatedAs(p: Panes, deps: Deps, id: LeafId, launch: Launch, primary: bool, preserve: bool, m: HostMaker)
    ensures var (q, ok) := CreateHost(p, deps, id, launch, primary, preserve, m);
            if ok then id in q.hosts && StartsAs(deps, launch, primary, preserve, m) == Some(q.hosts[id])
                       && id in q.launches && q.launches[id] == launch
            else StartsAs(deps, launch, primary, preserve, m).None? && q.hosts == p.hosts && id !in q.paneIds
  {
    hide StartsAs;
    WithPaneIdOnly(p, id);
    hide WithPaneId;
  }

  /// A provider that initializes is the host, for every launch of a known kind.
  lemma ProviderIsHost(p: Panes, deps: Deps, id: LeafId, launch: Launch, primary: bool, preserve: bool, m: HostMaker)
    requires launch.clientHostKind in {"", "platform_default"} + deps.knownHostKinds
    requires m.provider.Some? && m.initializes
    ensures var (q, ok) := CreateHost(p, deps, id, launch, primary, preserve, m);
            ok && id in q.hosts && q.hosts[id] == m.provider.value
  {
    CreatedAs(p, deps, id, launch, primary, preserve, m);
    hide CreateHost;
  }

  /// A host that is no plugin and does not initialize is refused unless the leaf is
  /// preserved, whether or not a placeholder could be made.
  lemma OrdinaryHostFails(p: Panes, deps: Deps, id: LeafId, launch: Launch, primary: bool, m: HostMaker)
    requires launch.clientHostKind in {"", "platform_default"} + deps.knownHostKinds
    requires launch.kind != Plugin && m.provider.Some? && !m.initializes
    ensures var (q, ok) := CreateHost(p, deps, id, launch, primary, false, m);
            !ok && q.hosts == p.hosts && id !in q.paneIds
  {
    CreatedAs(p, deps, id, launch, primary, false, m);
    hide CreateHost;
  }

  /// A plugin that does not initialize gets the placeholder, unless the command line
  /// asked for it as the primary host.
  lemma PluginFallsBack(p: Panes, deps: Deps, id: LeafId, launch: Launch, primary: bool, m: HostMaker)
    requires launch.clientHostKind in {"", "platform_default"} + deps.knownHostKinds
    requires launch.kind == Plugin && m.provider.Some? && !m.initializes
    ensures var (q, ok) := CreateHost(p, deps, id, launch, primary, false, m);
            var asked := primary && deps.kindExplicit && deps.primaryKind == Plugin;
            && (ok <==> m.placeholderInitializes && !asked)
            && (ok ==> id in q.hosts && q.hosts[id] == m.placeholder)
  {
    CreatedAs(p, deps, id, launch, primary, false, m);
    hide CreateHost;
  }

  /// Without a provider the leaf gets a placeholder if it is preserved or shows a
  /// client host, and no host otherwise.
  lemma NoProvider(p: Panes, deps: Deps, id: LeafId, launch: Launch, primary: bool, preserve: bool, m: HostMaker)
    requires m.provider.None?
    ensures var (q, ok) := CreateHost(p, deps, id, launch, primary, preserve, m);
            && (ok <==> m.placeholderInitializes && (preserve || launch.clientHostKind !in {"", "platform_default"}))
            && (ok ==> id in q.hosts && q.hosts[id] == m.placeholder)
  {
    CreatedAs(p, deps, id, launch, primary, preserve, m);
    hide CreateHost;
  }

  /// A client host that is not known gets the placeholder whatever the factory yields.
  lemma UnknownFallsBack(p: Panes, deps: Deps, id: LeafId, launch: Launch, primary: bool, preserve: bool,
                         m: HostMaker)
    requires launch.clientHostKind !in {"", "platform_default"} + deps.knownHostKinds
    ensures var (q, ok) := CreateHost(p, deps, id, launch, primary, preserve, m);
            (ok <==> m.placeholderInitializes) && (ok ==> id in q.hosts && q.hosts[id] == m.placeholder)
  {
    CreatedAs(p, deps, id, launch, primary, preserve, m);
    hide CreateHost;
  }

  // ---------------------------------------------------------------------------
  // The operations that make hosts

  /// A split with a launch that names no client host and no plugin succeeds exactly when
  /// the tree takes another leaf and the provider's host initializes: a host that fails is
  /// rolled back and never covered by a placeholder.
  lemma SplitNeedsProvider(p: Panes, deps: Deps, dir: Direction, launch: Launch, m: HostMaker)
    requires launch.clientHostKind in {"", "platform_default"} && launch.kind != Plugin
    ensures var (q, leaf) := SplitPane(p, deps, dir, launch, m);
            && (leaf != INVALID_LEAF <==>
                  && deps.allowLocalLayout && p.tree.focused != INVALID_LEAF
                  && SplitLeaf(p.tree, p.tree.focused, dir).1 != INVALID_LEAF
                  && m.provider.Some? && m.initializes)
            && (leaf != INVALID_LEAF ==> leaf in q.hosts && Some(q.hosts[leaf]) == m.provider)
  {
    hide CreateHost;
    hide SplitLeaf;
    hide CloseLeaf;
    hide SetFocused;
    var (tree, leaf) := SplitLeaf(p.tree, p.tree.focused, dir);
    CreatedAs(p.(tree := tree), deps, leaf, Completed(launch, deps), false, false, m);
  }

  /// A restarted pane is preserved: it keeps a host exactly when the new one or the
  /// placeholder initializes.
  lemma RestartNeedsAny(p: Panes, deps: Deps, id: LeafId, m: HostMaker)
    requires id in p.hosts && id in p.launches && id != INVALID_LEAF
    ensures var (q, ok) := RestartPane(p, deps, id, m);
            var runs := && p.launches[id].clientHostKind in {"", "platform_default"} + deps.knownHostKinds
                        && m.provider.Some? && m.initializes;
            && (ok <==> id in q.hosts) && (ok <==> runs || m.placeholderInitializes)
            && (ok ==> q.hosts[id] == if runs then m.provider.value else m.placeholder)
  {
    CreatedAs(p.(hosts := p.hosts - {id}), deps, id, p.launches[id], false, true, m);
    hide CreateHost;
  }

  /// Asked for on the command line, a plugin that does not initialize fails the start.
  lemma AskedPluginFails(p: Panes, deps: Deps, launch: Launch, m: HostMaker)
    requires launch.kind == Plugin && deps.kindExplicit && deps.primaryKind == Plugin
    requires launch.clientHostKind in {"", "platform_default"} && !(m.provider.Some? && m.initializes)
    ensures !Create(p, deps, launch, m).1
  {
    hide CreateHost;
    var base := NO_PANES.(tree := Reset(), zoomed := p.zoomed, zoomedLeaf := p.zoomedLeaf,
                          previewLeaf := p.previewLeaf, previewOwner := p.previewOwner);
    CreatedAs(base, deps, 0, launch.(ptyCaptureFile := deps.ptyCaptureFile), true, false, m);
  }

  /// The host is the provider's own object unless that could not run; then it is a
  /// placeholder, for a plugin or a client host.
  ghost predicate RunsProvider(deps: Deps, launch: Launch, m: HostMaker, host: HostId) {
    if launch.clientHostKind in {"", "platform_default"} + deps.knownHostKinds && m.provider.Some? && m.initializes
    then host == m.provider.value
    else
      && host == m.placeholder && m.placeholderInitializes
      && (launch.kind == Plugin || launch.clientHostKind !in {"", "platform_default"})
  }

  lemma StartedRuns(deps: Deps, wanted: Launch, launch: Launch, primary: bool, m: HostMaker, host: HostId)
    requires launch.kind == wanted.kind && launch.clientHostKind == wanted.clientHostKind
    requires StartsAs(deps, launch, primary, false, m) == Some(host)
    ensures RunsProvider(deps, wanted, m, host)
  {}

  /// After a projection every pane that shows an ordinary host runs the provider's own
  /// object, unless its host was kept: placeholders stand only for plugins and client hosts.
  lemma AppliedRunsProvider(p: Panes, deps: Deps, snap: LayoutSnapshot, factory: LeafId -> HostMaker, q: Panes,
                            pane: PaneSnapshot)
    requires Restore(snap.tree).Some? && Applied(p, deps, snap, factory, q)
    requires pane in snap.panes && !Kept(p, snap, pane.leaf)
    ensures pane.leaf in q.hosts && RunsProvider(deps, pane.launch, factory(pane.leaf), q.hosts[pane.leaf])
  {
    hide Restore;
    hide StartsAs;
    hide Kept;
    assert LeafApplied(p, deps, snap, factory, q, pane);
    hide Applied;
    StartedRuns(deps, pane.launch, Completed(pane.launch, deps), false, factory(pane.leaf), q.hosts[pane.leaf]);
    hide RunsProvider;
  }

  /// So it is after a restore.
  lemma RestoredRunsProvider(p: Panes, deps: Deps, saved: LayoutSnapshot, factory: LeafId -> HostMaker,
                             pane: PaneSnapshot)
    requires WellSaved(saved) && AllStart(deps, saved.panes, factory) && pane in saved.panes
    ensures var q := RestoreLayout(p, deps, saved, factory).0;
            pane.leaf in q.hosts && RunsProvider(deps, pane.launch, factory(pane.leaf), q.hosts[pane.leaf])
  {
    hide StartsAs;
    hide WellSaved;
    hide RestoreLayout;
    hide Strays;
    hide ZoomShown;
    hide Housed;
    hide RunsProvider;
    RestoreLayoutLaw(p, deps, saved, factory);
    var q := RestoreLayout(p, deps, saved, factory).0;
    var i :| 0 <= i < |saved.panes| && saved.panes[i] == pane;
    assert HostOf(deps, saved.panes, i, factory).Some?;
    assert PaneRestored(q, p, deps, pane, HostOf(deps, saved.panes, i, factory).value);
    RuntimeKind(deps, pane);
    hide RuntimeLaunch;
    StartedRuns(deps, pane.launch, RuntimeLaunch(deps, pane), i == 0, factory(pane.leaf), q.hosts[pane.leaf]);
  }

  lemma RuntimeKind(deps: Deps, pane: PaneSnapshot)
    ensures var launch := RuntimeLaunch(deps, pane);
            launch.kind == pane.launch.kind && launch.clientHostKind == pane.launch.clientHostKind
  {}

  // ---------------------------------------------------------------------------
  // What is recorded of a launch

  /// The launch is recorded as given, with the application's capture file, and with a
  /// working directory: its own, or else the default, or else the host's.
  ghost predicate RecordsLaunch(deps: Deps, wanted: Launch, live: Launch) {
    && live.(workingDir := wanted.workingDir, ptyCaptureFile := wanted.ptyCaptureFile) == wanted
    && live.ptyCaptureFile == deps.ptyCaptureFile
    && (wanted.workingDir != "" ==> live.workingDir == wanted.workingDir)
    && (wanted.workingDir == "" && deps.defaultWorkingDir != "" ==> live.workingDir == deps.defaultWorkingDir)
    && (wanted.workingDir == "" && deps.defaultWorkingDir == "" ==> live.workingDir == deps.hostWorkingDir)
  }

  lemma CompletedRecords(deps: Deps, launch: Launch)
    ensures RecordsLaunch(deps, launch, Completed(launch, deps))
  {}

  lemma SplitRecords(p: Panes, deps: Deps, dir: Direction, launch: Launch, m: HostMaker)
    ensures var (q, leaf) := SplitPane(p, deps, dir, launch, m);
            leaf != INVALID_LEAF ==> leaf in q.launches && RecordsLaunch(deps, launch, q.launches[leaf])
  {
    hide CreateHost;
    hide SplitLeaf;
    hide CloseLeaf;
    hide SetFocused;
    var (tree, leaf) := SplitLeaf(p.tree, p.tree.focused, dir);
    CreatedAs(p.(tree := tree), deps, leaf, Completed(launch, deps), false, false, m);
    CompletedRecords(deps, launch);
    hide Completed;
    hide RecordsLaunch;
    hide StartsAs;
  }

  lemma RestoredRecords(p: Panes, deps: Deps, saved: LayoutSnapshot, factory: LeafId -> HostMaker, pane: PaneSnapshot)
    requires WellSaved(saved) && AllStart(deps, saved.panes, factory) && pane in saved.panes
    ensures var q := RestoreLayout(p, deps, saved, factory).0;
            pane.leaf in q.launches && RecordsLaunch(deps, pane.launch, q.launches[pane.leaf])
  {
    hide StartsAs;
    hide WellSaved;
    hide RestoreLayout;
    hide Strays;
    hide ZoomShown;
    hide Housed;
    hide RecordsLaunch;
    RestoreLayoutLaw(p, deps, saved, factory);
    var q := RestoreLayout(p, deps, saved, factory).0;
    var i :| 0 <= i < |saved.panes| && saved.panes[i] == pane;
    assert HostOf(deps, saved.panes, i, factory).Some?;
    assert PaneRestored(q, p, deps, pane, HostOf(deps, saved.panes, i, factory).value);
    CompletedRecords(deps, pane.launch);
    hide Completed;
  }

  lemma AppliedRecords(p: Panes, deps: Deps, snap: LayoutSnapshot, factory: LeafId -> HostMaker, q: Panes,
                       pane: PaneSnapshot)
    requires Restore(snap.tree).Some? && Applied(p, deps, snap, factory, q)
    requires pane in snap.panes && !Kept(p, snap, pane.leaf)
    ensures pane.leaf in q.launches && RecordsLaunch(deps, pane.launch, q.launches[pane.leaf])
  {
    hide Restore;
    hide StartsAs;
    hide Kept;
    hide RecordsLaunch;
    assert LeafApplied(p, deps, snap, factory, q, pane);
    hide Applied;
    CompletedRecords(deps, pane.launch);
    hide Completed;
  }

  /// A split that names no host runs the shell the application was started with, with its
  /// command, or else the platform's shell, with none.
  lemma DefaultSplitRecords(p: Panes, deps: Deps, dir: Direction, m: HostMaker)
    ensures var (q, leaf) := SplitPane(p, deps, dir, SplitLaunch(deps), m);
            leaf != INVALID_LEAF ==>
              && leaf in q.launches
              && var live := q.launches[leaf];
                 && live.clientHostKind == "" && live.remoteTerminalId == "" && live.sourcePath == ""
                 && live.companionOwner == ""
                 && if deps.primaryKind in {PowerShell, Bash, Zsh, Wsl, RemoteTerminal} then
                      && live.kind == deps.primaryKind && live.command == deps.primaryCommand
                      && live.args == deps.primaryArgs && live.startupCommands == deps.primaryStartup
                    else
                      && live.kind == deps.platformShell && live.command == ""
                      && live.args == live.startupCommands == []
  {
    SplitRecords(p, deps, dir, SplitLaunch(deps), m);
    hide SplitPane;
  }

  /// A preview that is split off shows the file asked for, in a Markdown host that goes
  /// with the pane it was opened for.
  lemma PreviewRecords(p: Panes, deps: Deps, owner: LeafId, ratio: real, path: string, m: HostMaker)
    requires p.previewLeaf == INVALID_LEAF && owner in p.paneIds
    ensures var (q, leaf) := ShowPreview(p, deps, owner, ratio, path, m);
            leaf != INVALID_LEAF ==>
              && leaf in q.launches && q.launches[leaf].kind == Markdown && q.launches[leaf].sourcePath == path
              && q.launches[leaf].companionOwner == p.paneIds[owner] && q.launches[leaf].clientHostKind == ""
              && q.previewLeaf == leaf && q.previewOwner == owner
  {
    var q := p.(tree := SetFocused(p.tree, owner));
    SplitRecords(q, deps, Horizontal, PreviewLaunch(path, p.paneIds[owner]), m);
    hide SplitPane;
    hide SetFocused;
    hide SetParentRatio;
  }

  /// A preview that is open is shown and not opened again, for whatever pane and file it
  /// is asked for.
  lemma PreviewOpensOnce(p: Panes, deps: Deps, owner: LeafId, ratio: real, path: string, m: HostMaker,
                         owner': LeafId, ratio': real, path': string, m': HostMaker)
    ensures var (q, leaf) := ShowPreview(p, deps, owner, ratio, path, m);
            leaf != INVALID_LEAF ==> ShowPreview(q, deps, owner', ratio', path', m') == (q, leaf)
  {
    var q := PreviewChecked(p);
    if deps.allowLocalLayout && owner in p.hosts && !(p.previewLeaf != INVALID_LEAF && p.previewLeaf in p.hosts) {
      OpenedHasHost(q, deps, owner, ratio, path, m);
    }
    hide SplitOffPreview;
  }

  lemma OpenedHasHost(p: Panes, deps: Deps, owner: LeafId, ratio: real, path: string, m: HostMaker)
    ensures var (q, leaf) := SplitOffPreview(p, deps, owner, ratio, path, m);
            leaf != INVALID_LEAF ==> deps.allowLocalLayout && q.previewLeaf == leaf && leaf in q.hosts
  {
    var launch := PreviewLaunch(path, if owner in p.paneIds then p.paneIds[owner] else "");
    SplitHasHost(p.(tree := SetFocused(p.tree, owner)), deps, Horizontal, launch, m);
    hide SplitPane;
    hide SetFocused;
    hide SetParentRatio;
  }

  lemma SplitHasHost(p: Panes, deps: Deps, dir: Direction, launch: Launch, m: HostMaker)
    ensures var (q, leaf) := SplitPane(p, deps, dir, launch, m);
            leaf != INVALID_LEAF ==> deps.allowLocalLayout && leaf in q.hosts
  {
    hide CreateHost;
    hide SplitLeaf;
    hide CloseLeaf;
    hide SetFocused;
    hide Completed;
    var (tree, leaf) := SplitLeaf(p.tree, p.tree.focused, dir);
    CreatedAs(p.(tree := tree), deps, leaf, Completed(launch, deps), false, false, m);
  }

  // ---------------------------------------------------------------------------
  // What the host of a restored pane is started with

  /// A session is resumed when that is enabled, the pane's policy allows it, and its agent
  /// has a session of an official source that can be named by its identifier.
  ghost predicate MayResume(deps: Deps, pane: PaneSnapshot) {
    && deps.resumeOnRestore && pane.policy == ResumeIfAvailable && pane.agent.Some? && pane.session.Some?
    && pane.session.value.kind == RefId
    && (pane.session.value.source, pane.agent.value.kind) in deps.officialSources
  }

  /// A restored agent is started with its session exactly when it may resume it; one that is
  /// to come back as a shell with no command at all; and every other pane as it was saved.
  lemma StartedWith(deps: Deps, pane: PaneSnapshot)
    ensures var live, saved := RuntimeLaunch(deps, pane), pane.launch;
            && RecordsLaunch(deps, saved.(command := live.command, args := live.args,
                                          startupCommands := live.startupCommands), live)
            && (pane.agent.Some? && pane.policy == ShellOnly ==>
                  live.command == "" && live.args == [] && live.startupCommands == [])
            && (MayResume(deps, pane) ==>
                  && live.command == saved.command && live.startupCommands == [] && |live.args| == 2
                  && live.args[1] == pane.session.value.value
                  && live.args[0] == if pane.agent.value.kind == "codex" then "resume" else "--resume")
            && (!MayResume(deps, pane) && !(pane.agent.Some? && pane.policy == ShellOnly) ==>
                  && live.command == saved.command && live.args == saved.args
                  && live.startupCommands == saved.startupCommands)
  {}
}
