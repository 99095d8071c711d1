# Draxul: verified bookkeeping of the client

Draxul's client keeps a live structure of three levels: a session holds Spaces, a
Space holds tabs, and a tab holds a split tree whose leaves are panes with a host
each. User commands, saved sessions and snapshots of a server all edit that
structure. This project models the code that edits it, and proves what has to
survive every such edit. It also covers four state machines beside it: the agent
projection, the control event journal, mouse input, and the repair of the shared
glyph atlas and of plugins.

Each part has the same shape. A pure function says what one operation does to a
value (`Panes`, `Tabs`, `Spaces`, `Topology`, `Projection`, `Journal`, ...). A
class with the program's own fields and loops is proved to do exactly that, in
place. Lemmas about the functions then state what the operation means: invariants,
round trips, convergence, and properties of whole runs.

| files | part |
|---|---|
| `Identifiers`, `SplitTrees`, `SplitShapes`, `PaneNames` | bounded identifiers, split trees, generated pane ids |
| `PaneModel`, `PaneInvariants`, `PaneRoundTrip`, `PaneReconcile`, `PaneApply`, `PaneFailure`, `PaneSound`, `PaneZoom`, `PaneRuns`, `PaneSaving`, `PaneHosts`, `PaneSerials`, `PaneRecords`, `PaneEcho`, `PaneManager` | the panes of one tab |
| `PaneFocus`, `PaneOrigins`, `PaneProjection` | the focus calls of pane operations and of projected layouts |
| `TabModel`, `TabLaws`, `TabController` | the tabs of one Space, and focus |
| `SpaceModel`, `SessionRestore`, `SessionRoundTrip`, `SessionRuns`, `SessionNames`, `SpaceController` | the session |
| `TopologyModel`, `TopologyLaws`, `TopologyInvariant`, `TopologyRuns`, `TopologyConverges`, `TopologyHomes`, `TopologyStartup`, `TopologySpaces`, `TopologyApp`, `TabProjection`, `TopologyFocus` | projecting the server's topology |
| `AgentFence`, `AgentAttention`, `AgentController`, `AgentDiscovery` | agents |
| `EventJournal`, `EventClient`, `EventViews` | the control event journal |
| `MouseCapture`, `SmoothScroll`, `InputDispatcher` | mouse input |
| `AtlasRepair`, `PluginReload` | shared atlas, plugin reload |

## Conventions

- A host is an opaque object with an identity. Whether a host, and failing that its
  placeholder, starts is an argument (`HostMaker`); so is everything else that the
  operating system, a font, a plugin or a process decides.
- The walk over a hash map has no fixed order. In a pure function the order is an
  argument; a method picks elements with `:|` and gives its order back as a ghost
  result where the specification needs it.
- Focus is the set of hosts whose last call was a focus gain (`HostFocus`). A host
  that is shut down is in it no more.
- Split ratios and scroll distances are reals. Instants are integers.
- Times, generations and serials are unbounded; identifiers of Spaces and tabs are
  bounded by the 32-bit limit as in the code, and cursors of the journal wrap at 64 bits.

## Where a property fails

For each of these a lemma shows an input, and another lemma gives the condition
under which the property holds.

- Under zoom the keyboard should go to the visible pane (docs/features.md:624). Swapping
  the focused pane with the next one moves the focus and not the zoom
  (`SwapCanHideFocus`), and so does a focus move to a leaf whose host could not be
  started (`HostlessPaneTakesFocus`, a run of split, failed restart, zoom and focus
  move). `StepKeepsZoomShown` and `RunKeepsZoomShown` say that nothing else does.
- A restart whose relaunch and placeholder both fail leaves a leaf without a host and
  without a pane id. `RestartCanStrandLeaf`, `RestartLaw`.
- A projected layout one of whose hosts cannot start is given up. If every leaf had its
  host before, the layout of entry comes back, provided its hosts start again. If not,
  as at the first projection of a tab, the panes stay as the loop left them: a leaf
  without a host, and a name without a pane. `FirstProjectionCanStrand` shows it;
  `ReconciledLaw` says exactly when tables and tree agree afterwards, and `RetryHeals`
  that applying the same layout again then puts everything right.
- Saving, restoring and saving again is the identity exactly when the focus was not
  behind a zoom, every pane's capture file is the one in force, its directory comes
  back, and no policy other than the default is recorded without a managed agent.
  `SaveRestoreSave`, `SessionRoundTrip`; a run of split, zoom and swap that reaches a
  tab which is not saved back is in `HiddenFocusIsNotSavedBack`. The last condition
  always holds in runs that never lose a saved layout (`RunKeepsPolicies`); a lost one
  leaves policies without their agents (`PolicyOutlivesAgent`).
- The host with the focus should be the focused one of the tab in front. A swap moves the
  focus, and a restart of the focused pane makes its host, without a focus call; a focus
  move to a leaf that is not there takes the focus away; and a preview opened for another
  pane than the focused one leaves both with it. `RestartLosesFocus`, `PreviewSharesFocus`;
  `PaneOpHandsOver` says that of all pane operations these are the only ones, in any state
  that can be reached.
- A layout of the server applied to the tab in front loses the focus when the focused leaf
  gets a new host, when a failure makes every host again, and in two cases of a failure
  that has nothing to go back to (`PutBackLosesFocus`, `ProjectionHandsOver`). Applied to
  a tab behind it, a layout that moves the focus of that tab gives the keyboard to its new
  pane (`TakesFocusBehind`, `ProjectionAside`). `RunKeepsGlobalFocus` puts these and the
  operations before together for whole sessions.
- A plugin host that starts neither the candidate nor the build before it has no
  instance from then on: over any sequence of reloads each is rolled back in all panes,
  until that pane is restarted or closed. `OneFailedRollbackBlocksAll`, `ReloadIsAtomic`.
- An agent that was looked at should not ask for attention again until something new
  happens. The acknowledgement remembers the last look and not the latest observation,
  so a look at an older observation takes it back (`AcknowledgementGoesBack`).
  `StepKeepsAck` says which operations take an acknowledgement away, and
  `AcknowledgedStaysQuiet` that the agent stays quiet through all others.
- Looking twice at the same agents records nothing exactly when agents of one name are
  reported alike. `SecondLookRecordsNothing`.
- After a refresh of the shared atlas every grid should be at the generation recorded as
  repaired. `GridCanFallBehind` is a run that ends with one behind it: both drawing
  attempts of the grid reset the atlas in each pass. `BehindExactly` says which grids a
  pass leaves behind, by the draws of that pass; `PassesBehindExactly` and
  `RunBehindExactly` when none is left after a refresh and over a run; and
  `RefreshSucceedsExactly` when a refresh reports success, after which none is stale.
- One pane without a host, as a failed restart leaves it, keeps its whole session from
  being saved; nothing else does. `RestartCanStrandLeaf`, `SavedWhenHoused`,
  `SaveSpacesLaw`.

One check is weaker than what it is for, but no caller can make it fail: that of a
projected layout compares counts and would accept a tree that shows a leaf twice
(`AcceptsStrandedPane`, `AcceptedPanesMatchTree`). Decoding a snapshot refuses a pane
that two leaves show (libs/draxul-protocol/src/topology_protocol.cpp:315-331), and the
conversion of its layout a node that is reached twice
(libs/draxul-protocol/src/topology_layout.cpp:18-24). For the same reason the laws of
the topology take snapshots whose Spaces differ, whose Spaces have tabs, and whose tabs
differ within a Space (topology_protocol.cpp:346-374, 535-544).

## Model

| member | source | states |
|---|---|---|
| `Identifiers.HandedOutLaw` | libs/draxul-session-model/include/draxul/session_model.h:31-48 | over any run of requests the identifiers handed out are valid, distinct and consecutive, and requests are refused only once the limit is reached |
| `SplitTrees.SplitNodeLeaves` | libs/draxul-app-shell/src/split_tree.cpp:91-120 | a split puts the new leaf directly after the split one in spatial order and keeps ratios in range |
| `SplitTrees.CloseUndoesSplit` | libs/draxul-app-shell/src/split_tree.cpp:91-171 | closing the leaf a split just made gives back the tree before the split |
| `SplitTrees.SwapNodeLeaves` | libs/draxul-app-shell/src/split_tree.cpp:616-635 | a swap exchanges exactly two leaves in spatial order and is its own inverse |
| `SplitTrees.SplitLeafLaw` | libs/draxul-app-shell/src/split_tree.cpp:91-120 | a split leaf is new, the focus stays, and closing it restores the tree but for the consumed id; a refused split changes nothing |
| `SplitTrees.CloseLeafLaw` | libs/draxul-app-shell/src/split_tree.cpp:122-171 | a close succeeds exactly for a leaf of a tree with several, removes that leaf alone, and moves the focus only if that leaf had it |
| `SplitTrees.SwapLeavesLaw` | libs/draxul-app-shell/src/split_tree.cpp:616-635 | swapping keeps the set of leaves and undoes itself, focus included |
| `SplitTrees.RestoreLaw` | libs/draxul-app-shell/src/split_tree.cpp:390-432 | restoring a well-formed saved tree gives that tree, and restoring any tree keeps its leaves in order |
| `SplitShapes.SplitShape` | libs/draxul-app-shell/src/split_tree.cpp:91-120 | a split puts an even split of the leaf and the new one, in the direction asked for, in the leaf's place, and the rest of the tree, its directions and ratios included, is the same |
| `SplitShapes.CloseShape` | libs/draxul-app-shell/src/split_tree.cpp:122-171 | a close puts the sibling, leaf or subtree, in the place of the split above the leaf, changes nothing else, and moves a focus on the leaf to the first leaf of the sibling in spatial order |
| `SplitShapes.SiblingOf` | libs/draxul-app-shell/src/split_tree.cpp:122-171 | so for every leaf of a tree with several: each has a place and a sibling |
| `SplitShapes.ResizeShape` | libs/draxul-app-shell/src/split_tree.cpp:218-245 | setting the ratio above a leaf changes that split alone, and keeps the ratio between 0.1 and 0.9 |
| `SplitShapes.RestoredTree` | libs/draxul-app-shell/src/split_tree.cpp:390-432 | a tree that is read back keeps its focus, or gets it on the first leaf, and its counter, or one above every leaf |
| `SplitShapes.OnwardVisits` | libs/draxul-app-shell/src/split_tree.cpp:637-653 | stepping to the next leaf goes through the leaves in spatial order, and comes back after as many steps as there are leaves |
| `SplitShapes.SwapsNeighbours` | app/pane_manager.cpp:417-444 | a swap exchanges the focused leaf with the one at the next place, the first after the last; all others stay, and so does the place of the focus |
| `PaneNames.PaneNameRoundTrip` | app/pane_manager.cpp:108-121 | a generated pane id parses back to its serial exactly when the serial fits 64 bits |
| `PaneNames.PaneNameInjective` | app/pane_manager.cpp:1306-1330 | different serials give different pane ids |
| `PaneNames.FreshSerialLaw` | app/pane_manager.cpp:1306-1330 | the search for an unused pane id ends after at most as many steps as there are ids in use, at the first unused one |
| `PaneInvariants.CreateHostLaw` | app/pane_manager.cpp:1306-1477 | making a host either completes the leaf in every table with fresh ids or leaves no trace but consumed serials; which of the two is said by the laws of `PaneHosts` |
| `PaneHosts.StartsExactly` | app/pane_manager.cpp:1368-1461 | the host a leaf gets is the provider's if that initializes, or the placeholder if that does and covers the failure, which it does for a client host that is unknown or has no provider, for a plugin not asked for on the command line, and in a leaf that is preserved |
| `PaneHosts.ProviderIsHost` | app/pane_manager.cpp:1368-1472 | a provider that initializes is the host of every launch of a known kind |
| `PaneHosts.OrdinaryHostFails` | app/pane_manager.cpp:1429-1448 | a host that is no plugin and does not initialize is refused unless the leaf is preserved, whatever the placeholder would do, and leaves no host and no pane id |
| `PaneHosts.PluginFallsBack` | app/pane_manager.cpp:1435-1461 | a plugin that does not initialize gets the placeholder, if that initializes, unless it was asked for on the command line as the primary host |
| `PaneHosts.NoProvider` | app/pane_manager.cpp:1391-1406 | without a provider the leaf gets the placeholder exactly when it is preserved or a client host is projected on it |
| `PaneHosts.UnknownFallsBack` | app/pane_manager.cpp:1370-1377 | a client host that this build does not know gets the placeholder whatever the factory yields |
| `PaneHosts.SplitNeedsProvider` | app/pane_manager.cpp:268-302 | a split with a launch that is neither plugin nor client host succeeds exactly when the tree takes a leaf and the provider's host initializes |
| `PaneHosts.RestartNeedsAny` | app/pane_manager.cpp:380-415 | a restarted pane has a host exactly when the new one or the placeholder initializes, the new one if it can |
| `PaneHosts.AskedPluginFails` | app/pane_manager.cpp:1435-1448 | a plugin asked for on the command line that does not initialize fails the start |
| `PaneHosts.AppliedRunsProvider` | app/pane_manager.cpp:949-960 | after a projection a pane whose host was not kept runs the provider's own object, and a placeholder only for a plugin or a client host |
| `PaneHosts.RestoredRunsProvider` | app/pane_manager.cpp:750-815 | after a restore a pane runs the provider's own object if that could run, and a placeholder only for a plugin or a client host |
| `PaneHosts.SplitRecords` | app/pane_manager.cpp:268-302 | the launch of a new pane is recorded as given, with the application's capture file, in its own directory, or else the default one, or else the host's |
| `PaneHosts.RestoredRecords` | app/pane_manager.cpp:745-815 | the launch of a restored pane is recorded as saved, with the capture file in force and a working directory chosen in the same way |
| `PaneHosts.AppliedRecords` | app/pane_manager.cpp:949-960 | and so is that of a projected pane whose host is new |
| `PaneHosts.DefaultSplitRecords` | app/pane_manager.cpp:207-246 | a split that names no host runs the shell the application was started with, with its command line, or else the platform's shell with none |
| `PaneHosts.PreviewRecords` | app/pane_manager.cpp:491-548 | a new preview shows the file asked for in a Markdown host that goes with its owner |
| `PaneHosts.PreviewOpensOnce` | app/pane_manager.cpp:491-548 | a preview that is open is handed back, and nothing changes, whatever it is asked for |
| `PaneHosts.StartedWith` | app/pane_manager.cpp:745-790 | a restored agent is started with its session exactly when resuming is enabled, its policy allows it and the session can be named by its identifier; as a shell with no command at all; or as it was saved |
| `PaneInvariants.CreateLaw` | app/pane_manager.cpp:143-205 | a created manager has consistent tables, one leaf and no zoom |
| `PaneInvariants.ConsistentExactly` | app/pane_manager.cpp:207-444 | tables and tree agree exactly when every leaf has its host, with an id of its own, and nothing is recorded without one |
| `PaneInvariants.SplitLaw` | app/pane_manager.cpp:207-302 | a split adds one leaf with a new pane id and the next generation and focuses it; a failed split gives back the tree and every table |
| `PaneInvariants.CloseLaw` | app/pane_manager.cpp:304-368 | a close succeeds exactly for a hosted leaf among several where local layout is allowed, forgets that leaf everywhere and keeps the tables consistent |
| `PaneInvariants.CloseZoom` | app/pane_manager.cpp:304-368 | a close keeps the zoom on a live pane, and on the focused one if it was there |
| `PaneInvariants.RestartLaw` | app/pane_manager.cpp:380-415 | a restart keeps the tables consistent exactly when the relaunch or the placeholder starts, and then the leaf has a new host and the next generation |
| `PaneInvariants.RestartCanStrandLeaf` | app/pane_manager.cpp:380-415 | a restart in which both fail leaves a leaf without a host |
| `PaneInvariants.SwapLaw` | app/pane_manager.cpp:417-444 | a swap keeps the tables and gives the focus to the next leaf; a zoomed pane stays the focused one exactly when nothing was swapped or nothing was zoomed |
| `PaneInvariants.SwapCanHideFocus` | app/pane_manager.cpp:417-444 | with two panes and a zoom, a swap puts the keyboard into the hidden pane |
| `PaneInvariants.ToggleZoomLaw` | app/pane_manager.cpp:463-489 | toggling zoom flips it when there are several panes, keeps it on the focused pane, and toggling twice changes nothing |
| `PaneInvariants.UpdateFocusZoom` | app/pane_manager.cpp:1173-1195 | moving the focus carries the zoom along |
| `PaneInvariants.ShowPreviewLaw` | app/pane_manager.cpp:491-548 | showing the preview adds at most one leaf, leaves the focus on the owner or where it was, and keeps tables and zoom |
| `PaneInvariants.HidePreviewLaw` | app/pane_manager.cpp:550-568 | hiding the preview keeps tables and zoom and leaves no preview |
| `PaneInvariants.HidePreviewPlace` | app/pane_manager.cpp:550-568 | hiding the preview beside another pane removes exactly the preview's leaf and hands the focus back to the previewed pane while that is still shown |
| `PaneReconcile.AcceptedPanesMatchTree` | app/pane_manager.cpp:829-900 | an accepted layout's panes are the leaves of its tree exactly when the tree shows no leaf twice |
| `PaneReconcile.AcceptsStrandedPane` | app/pane_manager.cpp:829-900 | by itself the check accepts a tree that shows a leaf twice, with a pane that is not in it; decoding refuses such a tree before |
| `PaneReconcile.AppliedIsConsistent` | app/pane_manager.cpp:829-1012 | after a successful reconcile leaves, hosts, launch options and pane ids agree exactly with the snapshot and no zoom is left, whatever names, hosts or leftovers there were before; the tables agree with the tree exactly when the layout names every leaf something was recorded for without a host |
| `PaneReconcile.KeptExactlyWhenSameHost` | app/pane_manager.cpp:884-945 | a live leaf keeps its runtime generation and its host object exactly when the snapshot has the same kind, remote terminal, client host, plugin and plugin configuration, and the same source unless it is Markdown |
| `PaneReconcile.AppliedRecordsSnapshot` | app/pane_manager.cpp:884-981 | after a successful reconcile every pane, its host kept or new, records the kind, remote terminal, client host, plugin, configuration, source and companion that the snapshot names |
| `PaneReconcile.AppliedNamesPanes` | app/pane_manager.cpp:949-956 | after a successful reconcile every pane has the pane id and the name that the snapshot gives it |
| `PaneReconcile.AgentsFollowHosts` | app/pane_manager.cpp:920-942 | what was recorded of a pane's agent stays exactly when its host does |
| `PaneReconcile.AppliedShowsPreview` | app/pane_manager.cpp:983-1001 | after it a preview is shown exactly when some Markdown pane names a pane of the layout as its companion, and it is the preview of such a pair |
| `PaneEcho.SavedIsAccepted` | app/pane_manager.cpp:829-882 | every layout with one pane for each leaf of a well-formed tree, all with different pane ids, passes the check |
| `PaneEcho.EchoChangesNothing` | app/pane_manager.cpp:663-1012 | applied to the tab it was saved from, a layout keeps the tree, every host with its generation and every record, and ends a zoom |
| `PaneReconcile.FailedReconcileRestores` | app/pane_manager.cpp:961-981 | after a host fails half-way the layout saved at entry is put back exactly when its own hosts start again, with the zoom and the pane ids of entry and the focus on a zoomed pane; otherwise no host is left |
| `PaneFailure.ReconciledLaw` | app/pane_manager.cpp:829-1012 | every outcome of a reconcile: what holds afterwards whether it was rejected, applied, rolled back or left half-way, and exactly when tables and tree agree |
| `PaneFailure.StuckLaw` | app/pane_manager.cpp:949-981 | a reconcile that fails with nothing to go back to leaves a leaf without a host, and no record outside the layout |
| `PaneFailure.FirstProjectionCanStrand` | app/pane_manager.cpp:949-981 | the first projection of a named pane whose host cannot start leaves its leaf without a host and its name without a pane |
| `PaneFailure.RetryHeals` | app/app.cpp:3893-3924 | after a failed reconcile, applying a layout that names what it left behind, such as the same one again, makes tables and tree agree |
| `PaneApply.ProgressStep` | app/pane_manager.cpp:949-981 | in whatever order new hosts are made, each turn applies one leaf and disturbs no other |
| `PaneApply.TurnFails` | app/pane_manager.cpp:949-981 | a reconcile fails only because some pane that needs a new host cannot have one |
| `PaneRoundTrip.SnapshotIsWellSaved` | app/pane_manager.cpp:663-710 | a manager whose leaves have their hosts saves one pane per leaf in spatial order, each with its own stable id |
| `PaneRoundTrip.RestoreLayoutLaw` | app/pane_manager.cpp:712-827 | restoring a saved layout whose hosts start puts back the tree, the zoom and everything recorded for each pane; a focus saved behind the zoom goes to the zoomed pane; what is left beside the panes is what a shutdown does not clear; where the counters stand is said by the laws of `PaneSerials` |
| `PaneSerials.RestoreRaisesSerials` | app/pane_manager.cpp:750-761 | after a restore every pane id that parses to a serial has it below the counter, which is one or one past such a serial |
| `PaneSerials.SplitAfterRestore` | app/pane_manager.cpp:1306-1330 | the first pane split off after a restore has a serial above every restored one |
| `PaneSerials.RestoreNumbersPanes` | app/pane_manager.cpp:1468-1475 | a restore numbers its panes 1, 2, 3 and so on |
| `PaneSerials.RestoredKnown` | app/pane_manager.cpp:712-827 | after a restore no two pane ids are alike and the counter is above each |
| `PaneSerials.StepNewIds` | app/pane_manager.cpp:1306-1330 | no local operation, failed or not, hands out a pane id made of a serial issued before |
| `PaneSerials.IdentitiesNeverReused` | app/pane_manager.cpp:207-827 | over every run of local operations a pane id seen at two moments belongs to the same pane at both and at every moment between |
| `PaneRoundTrip.RestoreFails` | app/pane_manager.cpp:712-815 | a restore in which some host does not start leaves the saved tree without any host |
| `PaneRoundTrip.SavedWhenHoused` | app/pane_manager.cpp:663-682 | a tab is saved exactly when every leaf has its host, whatever names or policies are left over |
| `PaneRoundTrip.SaveRestoreSave` | app/pane_manager.cpp:663-827 | from any state that holds of every reached tab: it is saved exactly when every leaf has its host, and save, restore, save is then the identity exactly when no focus was behind a zoom and every pane survives; otherwise, if every pane survives, only the focus moves, to the zoomed pane |
| `PaneRoundTrip.ResumeIsOneTime` | app/pane_manager.cpp:750-815 | a resumed agent starts with its session reference, and what is kept for the next save is the profile's own command line |
| `PaneSound.SplitSound` | app/pane_manager.cpp:207-302 | a split, made or rolled back, keeps what holds in every state, also when some leaf has no host |
| `PaneRuns.RunKeepsSound` | app/pane_manager.cpp:207-1012 | over every run of splits, closes, restarts, swaps, zooms, focus moves, previews, names, agents and reconciles, failed ones included, hosts are on leaves with their own launch options, pane ids and unique generations, and zoom and preview are on leaves |
| `PaneRuns.StepKeepsConsistent` | app/pane_manager.cpp:207-1123 | from tables that agree with their tree exactly three kinds of operation lead to others: a restart that finds no host, a name for a leaf that is not there, and a failed reconcile that cannot go back |
| `PaneRuns.RunKeepsConsistent` | app/pane_manager.cpp:207-1123 | so over any run up to the first such operation the tables have one key set, pane ids and generations are unique, and a zoom is on a live pane of several |
| `PaneRuns.RunKeepsZoomShown` | app/pane_manager.cpp:417-568 | over any run, with leaves that lost their host and all failures, the zoomed pane is the focused one up to the first swap under zoom or focus move under zoom to a leaf without a host, and not after it |
| `PaneRuns.StepKeepsZoomShown` | app/pane_manager.cpp:417-1195 | in every state that can be reached, exactly two operations take the focus off the visible pane: a swap under zoom, and a focus move under zoom to another leaf that has no host |
| `PaneRuns.GenerationsNeverReused` | app/pane_manager.cpp:1306-1477 | a runtime generation seen at two moments of a run belongs to the same leaf at both and at every moment between, unless a failed reconcile went back to a saved layout between them |
| `PaneRecords.LayoutKeepsNotes` | app/pane_manager.cpp:207-568 | whatever is done to the layout, also where hosts fail, every leaf that is not closed keeps its name, agent, policy and session |
| `PaneRecords.NamedAsGiven` | app/pane_manager.cpp:1014-1020 | a pane has the name given to it, none after an empty one, and no other pane is touched |
| `PaneRecords.AgentAsGiven` | app/pane_manager.cpp:1082-1094 | an agent is recorded exactly for a hosted pane and when it is complete; only a discovered one costs the pane its session |
| `PaneRecords.ClearUndoesAgent` | app/pane_manager.cpp:1082-1107 | clearing an agent undoes recording it |
| `PaneRecords.SessionAsGiven` | app/pane_manager.cpp:1109-1123 | a session is taken over exactly when it is valid, of a managed agent of the same kind, and newer than the one recorded |
| `PaneRecords.SessionsNeverGoBack` | app/pane_manager.cpp:1082-1123 | over every run of local operations the session of a pane is replaced by newer ones only |
| `PaneZoom.ZoomOutlivesClose` | app/pane_manager.cpp:325-345 | a zoom outlives a close exactly when another pane was closed and several are left, and then shows the same pane |
| `PaneSaving.StepKeepsPolicies` | app/pane_manager.cpp:1082-1107 | every operation that loses no saved layout keeps restart policies with managed agents |
| `PaneSaving.RunKeepsPolicies` | app/pane_manager.cpp:1082-1107 | so over every run that goes back only to layouts it can put back |
| `PaneSaving.PolicyOutlivesAgent` | app/pane_manager.cpp:570-594 | a shutdown leaves a policy that was recorded with an agent, and not the agent |
| `PaneSaving.ReachedIsSavedAlike` | app/pane_manager.cpp:663-827 | however a manager was used since its creation, as long as its tables agree, its layout comes back the same from save, restore and save exactly when no focus was behind a zoom and every launch survives |
| `PaneSaving.HiddenFocusIsNotSavedBack` | app/pane_manager.cpp:815-824 | a run of split, zoom and swap reaches a tab whose second snapshot is never the first |
| `PaneSaving.HostlessPaneTakesFocus` | app/pane_manager.cpp:1173-1195 | a run of split, failed restart, zoom and focus move, without a swap, ends with the keyboard in a hidden pane |
| `PaneFocus.PaneOpHandsOver` | app/pane_manager.cpp:207-568 | in the tab that has the focus, also with leaves that lost their host, exactly four kinds of operation do not hand the focus to the host focused then: a swap with a host on either side, a restart that makes the focused host again, a move to a missing leaf, and a preview opened for a pane that is not the focused one |
| `PaneFocus.RestartLosesFocus` | app/pane_manager.cpp:380-415 | the new host of a restarted lone pane is never told that it has the focus |
| `PaneFocus.PreviewSharesFocus` | app/pane_manager.cpp:515-547 | a preview opened for a pane that is not the focused one leaves both with the focus |
| `PaneFocus.PaneOpKeepsOwn` | app/pane_manager.cpp:207-568 | every pane operation, failed ones included, keeps the panes sound with a host object of its own on each leaf, and brings in no host but a new one |
| `PaneOrigins.CreatedOwn` | app/pane_manager.cpp:143-205 | the panes of a tab that was created are sound and hold the one host that was made |
| `PaneOrigins.RestoredOwn` | app/pane_manager.cpp:712-827 | any layout that passes the checks of a session file (libs/draxul-session-model/src/session_state.cpp:632-812) and zooms no lone pane, however its focus, ratios and pane order are, comes back, if it does, as sound panes with hosts of their own |
| `PaneProjection.ProjectionKeepsOwn` | app/pane_manager.cpp:829-1012 | applied, rejected, put back or stopped half-way, a projected layout leaves sound panes with hosts of their own |
| `PaneProjection.ProjectionHandsOver` | app/pane_manager.cpp:961-1009 | exactly when applying a layout to the tab with the focus leaves the focus with the host focused then, for every outcome |
| `PaneProjection.ProjectionAside` | app/pane_manager.cpp:1003-1009 | in a tab that is not in front applying a layout changes who has the focus exactly when it succeeds and moves the tab's own focus |
| `PaneProjection.PutBackLosesFocus` | app/pane_manager.cpp:961-981 | the pane that is put back after a layout that could not start is never told that it has the focus |
| `PaneProjection.TakesFocusBehind` | app/pane_manager.cpp:1003-1009 | the pane that replaces the only one of a tab behind another is told that it has the focus |
| `PaneManagers.PaneManager.EnsurePaneId` | app/pane_manager.cpp:1306-1330 | the loop that looks for a free pane id does what the specification says and ends |
| `PaneManagers.PaneManager.CreateHostForLeaf` | app/pane_manager.cpp:1306-1477 | in place: the new tables and the result of making a host, as the laws of `PaneHosts` describe them |
| `PaneManagers.PaneManager.SplitFocused` | app/pane_manager.cpp:268-302 | in place: the whole state after a split, with its rollback |
| `PaneManagers.PaneManager.CloseLeafPane` | app/pane_manager.cpp:304-368 | in place: the whole state after a close |
| `PaneManagers.PaneManager.RestartLeaf` | app/pane_manager.cpp:380-415 | in place: the whole state after a restart |
| `PaneManagers.PaneManager.SwapFocusedWithNext` | app/pane_manager.cpp:417-444 | in place: the whole state after a swap |
| `PaneManagers.PaneManager.Zoom` | app/pane_manager.cpp:463-489 | in place: the zoom after a toggle |
| `PaneManagers.PaneManager.MoveFocus` | app/pane_manager.cpp:1173-1195 | in place: focus and zoom after a focus move |
| `PaneManagers.PaneManager.ShowMarkdownPreview` | app/pane_manager.cpp:491-548 | in place: the whole state after showing the preview |
| `PaneManagers.PaneManager.HideMarkdownPreview` | app/pane_manager.cpp:550-568 | in place: the whole state after hiding the preview |
| `PaneManagers.PaneManager.SetPaneName` | app/pane_manager.cpp:1014-1020 | in place: a pane named, or its name taken away |
| `PaneManagers.PaneManager.SetAgentIdentity` | app/pane_manager.cpp:1082-1094 | in place: agent, policy and session after an agent is recorded |
| `PaneManagers.PaneManager.ClearAgentIdentity` | app/pane_manager.cpp:1102-1107 | in place: no agent, policy or session left |
| `PaneManagers.PaneManager.SetAgentSessionRef` | app/pane_manager.cpp:1109-1123 | in place: the session of a managed agent replaced by a newer one |
| `PaneManagers.PaneManager.SaveLayout` | app/pane_manager.cpp:663-710 | the loop over leaves saves exactly the specified layout or nothing |
| `PaneManagers.PaneManager.RestoreSavedLayout` | app/pane_manager.cpp:712-827 | in place: the whole state after a restore, failed or not, with the counters that `PaneSerials.RestoreRaisesSerials` and `PaneSerials.RestoreNumbersPanes` give |
| `PaneManagers.PaneManager.ReconcileProjectedLayout` | app/pane_manager.cpp:829-1012 | from any sound state, in place: a rejected layout changes nothing; success means the layout is applied; failure means a host could not start, and either the layout of entry was restored or the panes are as the loop left them; which hosts stay is `PaneReconcile.KeptExactlyWhenSameHost` |
| `TabLaws.ReorderLaw` | app/tab_controller.cpp:244-272 | a projected reorder succeeds exactly when the list names every tab once; then the same tabs stand in its order, otherwise nothing changes |
| `TabLaws.MoveLaw` | app/tab_controller.cpp:227-242 | moving a tab loses and duplicates none |
| `TabLaws.MoveBack` | app/tab_controller.cpp:227-242 | moving a tab and moving it back restores the order |
| `TabLaws.NextThenPrevious` | app/tab_controller.cpp:196-225 | the previous tab of the next tab is the tab one was on, and the reverse |
| `TabLaws.ClosedLeavesOrder` | app/tab_controller.cpp:124-145 | closing a tab leaves the others in order |
| `TabLaws.ClosedActivates` | app/tab_controller.cpp:124-145 | when the active tab is closed, the one a step forward would show becomes active, or a step back if it was the last; closing another tab moves no active one |
| `SessionNames.AddUsesUp` | app/tab_controller.cpp:52-104 | every attempt to add a tab uses up an identifier; the tab, if its panes are made, comes last, has that identifier and is active |
| `TabLaws.TabOpKeeps` | app/tab_controller.cpp:52-272 | every tab operation keeps identifiers distinct and bounded and hands the focus over within its Space, touching no host of another |
| `TabControllers.TabController.ActivateTab` | app/tab_controller.cpp:147-176 | in place: the new active tab and exactly the focus calls made |
| `TabControllers.TabController.EnableFocus` | app/tab_controller.cpp:178-194 | in place: focus goes to or from the current host of the Space and no other |
| `TabControllers.TabController.AddTabWith` | app/tab_controller.cpp:27-104 | in place: a tab with a new identifier, active and holding the focus, or nothing but a consumed identifier |
| `TabControllers.TabController.AddProjectedTab` | app/tab_controller.cpp:106-122 | in place: an empty tab with a new identifier, while identifiers last |
| `TabControllers.TabController.Close` | app/tab_controller.cpp:124-145 | in place: one tab less and the focus handed over before its hosts go; the last tab is never closed |
| `TabControllers.TabController.Next` | app/tab_controller.cpp:196-209 | in place: the next tab active and holding the focus |
| `TabControllers.TabController.Previous` | app/tab_controller.cpp:211-225 | in place: the previous tab active and holding the focus |
| `TabControllers.TabController.Move` | app/tab_controller.cpp:227-242 | in place: the active tab exchanged with the one the given distance away |
| `TabControllers.TabController.SaveAll` | app/tab_controller.cpp:346-364 | the loop saves exactly the specified tabs or nothing |
| `TabControllers.TabController.ReorderProjected` | app/tab_controller.cpp:244-272 | in place: the tabs in the requested order, or unchanged |
| `TabControllers.TabController.RestoreSaved` | app/tab_controller.cpp:366-451 | in place: saved tabs replace the old ones only after every check, and the focus goes to the new holder |
| `SpaceModel.TabOperationKeepsGlobalFocus` | app/space_controller.cpp:98-119 | a tab operation in any Space that hands focus over within that Space keeps the focus of the whole session right |
| `SpaceModel.ActivateKeepsGlobalFocus` | app/space_controller.cpp:98-119 | after entering a Space its current host is the only one holding focus |
| `SpaceModel.CreateKeepsGlobalFocus` | app/space_controller.cpp:77-96 | a new Space takes no focus |
| `SpaceModel.CloseKeepsGlobalFocus` | app/space_controller.cpp:140-167 | closing a Space leaves the focus with the rightful host; the first other Space with an active tab replaces a closed active one |
| `SessionRestore.RestoreTabsLaw` | app/tab_controller.cpp:366-451 | a tab restore that succeeds leaves an active tab, distinct identifiers and a counter above every saved one, even of a skipped tab; one that fails changes nothing |
| `SessionRestore.RestoreSpacesLaw` | app/space_controller.cpp:200-310 | a session restore is refused exactly on empty, invalid or unrestorable input; its failure after the commit cannot happen; and what it commits has distinct identifiers below a counter within the limit, the wanted Space active if it came back, and the focus where it belongs |
| `SessionNames.RestoredTabIsActive` | app/tab_controller.cpp:366-451 | the saved active tab is active again if it came back, and otherwise the first |
| `SessionNames.RestoredSpaceIsActive` | app/space_controller.cpp:200-310 | the saved active Space is active again if it came back, and otherwise the first |
| `SessionNames.RestoredTabName` | app/tab_controller.cpp:366-451 | a tab comes back with its name, or with one if it had none |
| `SessionNames.RestoredName` | app/space_controller.cpp:228-245 | a Space comes back with its name and directory, or with a name if it had none |
| `SessionRoundTrip.SaveTabsLaw` | app/tab_controller.cpp:346-364 | tabs are saved exactly when every leaf of each has its host, under their identifiers and in order |
| `SessionRoundTrip.SaveSpacesLaw` | app/space_controller.cpp:178-198 | a session is saved exactly when every leaf of every tab has its host; one that has none keeps all of it from being saved |
| `SessionRoundTrip.SpaceSavedAgain` | app/space_controller.cpp:178-310 | a saved Space comes back and saves as before exactly when its tabs survive: no focus behind a zoom, and every pane |
| `SessionRoundTrip.SessionRoundTrip` | app/space_controller.cpp:178-310 | a session with sound tabs is saved exactly when every leaf has its host; save, restore over any session, save: active Space, counter and identifiers come back, and the second snapshot is the first exactly when in every tab no focus was behind a zoom and every pane survives |
| `SessionRuns.StepKeepsFocus` | app/space_controller.cpp:77-310 | each operation on Spaces and tabs keeps the focus of the session right; one on the panes in front, or a tab projected in front or behind, does so exactly when it is none of those that lose or take the focus; all keep every tab sound with hosts of its own |
| `SessionRuns.RunKeepsOwn` | app/space_controller.cpp:77-310 | in every state of such a run, also after one of those operations, the panes of every tab are sound and no host object is on two leaves |
| `SessionRuns.RunKeepsGlobalFocus` | app/space_controller.cpp:77-310 | over any run of operations on Spaces, tabs and panes, restores and projected tabs, failed ones included, the hosts holding focus are exactly the focused host of the active tab of the active Space up to the first operation that loses or takes the focus, and not after it |
| `SessionNames.RunKeepsNames` | app/space_controller.cpp:13-310 | over every run each Space has a name |
| `SpaceControllers.SpaceController.Create` | app/space_controller.cpp:77-96 | in place: a new Space with focus off, or nothing |
| `SpaceControllers.SpaceController.Activate` | app/space_controller.cpp:98-119 | in place: the new active Space and the focus calls made |
| `SpaceControllers.SpaceController.Rename` | app/space_controller.cpp:121-128 | in place: one name changed, and never to an empty one |
| `SpaceControllers.SpaceController.SetRoot` | app/space_controller.cpp:130-138 | in place: one root directory changed |
| `SpaceControllers.SpaceController.Close` | app/space_controller.cpp:140-167 | in place: the Spaces left and the focus after the hand-over |
| `SpaceControllers.SpaceController.SnapshotSpaces` | app/space_controller.cpp:178-198 | the loop saves exactly the specified session or nothing |
| `SpaceControllers.SpaceController.RestoreSaved` | app/space_controller.cpp:200-310 | in place: a refused restore leaves Spaces, active id, counter and focus untouched; a committed one replaces them all |
| `TopologyLaws.PlaceKeeps` | app/app.cpp:4197-4244 | finding, adopting or adding the local tab of a remote tab keeps the map injective: what it hands out no remote tab, live or stale, had |
| `TopologyLaws.CloseTabLaw` | app/tab_controller.cpp:124-145 | closing a tab takes that tab away and no other, and is refused only for a missing or last tab |
| `TopologyLaws.FinishKeeps` | app/app.cpp:4246-4274 | closing unclaimed tabs, reordering and activating lose no claimed tab |
| `TopologyInvariant.ApplySpaceKeeps` | app/app.cpp:4168-4274 | the pass over one Space keeps the map injective and every entry of a live remote tab on a live local tab |
| `TopologyInvariant.SweepKeepsLive` | app/app.cpp:4276-4291 | the sweep of stale tabs, in any order, closes no tab a live remote tab owns |
| `TopologyRuns.ApplyTabsKeeps` | app/app.cpp:4133-4321 | once identities resolve, whatever else fails, every entry left is of a live remote tab and names a live local tab of a live Space; if they do not resolve nothing changes |
| `TopologyRuns.ApplySpacesKeeps` | app/app.cpp:4047-4117 | the Space phase keeps the two Space maps inverse to each other, their entries live, and the tab map sound |
| `TopologyRuns.SnapshotKeeps` | app/app.cpp:4047-4321 | one snapshot keeps the projection sound |
| `TopologyRuns.RunKeepsTopology` | app/app.cpp:4047-4321 | over every run of snapshots with distinct Space ids the remote-to-local tab map is injective, and after each whose tab phase ran no entry dangles |
| `TopologyConverges.AllPlaced` | app/app.cpp:4195-4244 | with identifiers to spare every remote tab gets a local one, in order and with its name |
| `TopologyConverges.AllClosed` | app/app.cpp:4248-4255 | as long as one tab stays, closing all others succeeds |
| `TopologyConverges.SpaceConverges` | app/app.cpp:4168-4274 | one pass leaves exactly the images of the remote tabs, in server order, and succeeds exactly when every tab projects |
| `TopologyConverges.ApplyTabsConverges` | app/app.cpp:4133-4321 | with identities that do not repeat, a tab in every Space and identifiers to spare, one application leaves every mapped Space with exactly the images of its remote tabs in server order and one of them active, whatever it held before, and reports success exactly when every tab projected |
| `TopologyHomes.HomesResolve` | app/app.cpp:4135-4166 | while no tab changes its Space, the identities a snapshot needs always resolve once its Space phase succeeds |
| `TopologyHomes.RunResolves` | app/app.cpp:4047-4321 | over every run of decoded snapshots in which no tab changes its Space, after each that reaches the tab phase the tab map is injective, holds only tabs of the snapshot, and every entry names a live local tab |
| `TopologyHomes.RunConverges` | app/app.cpp:4047-4321 | at any point of such a run, with identifiers to spare, the next snapshot leaves every Space it names with exactly the images of its tabs, and succeeds exactly when every tab projects |
| `TopologyHomes.ApplyTwice` | app/app.cpp:4133-4321 | applying a snapshot and then the same tabs again, with their layouts in place, changes nothing the second time |
| `TopologyStartup.StartupOnce` | app/app.cpp:4293-4308 | an application that succeeds with the start-up tab bound leaves none waiting, that tab's Space active and that tab active in it; in every other case the waiting tab and the active Space stay |
| `TopologyStartup.StartupEntered` | app/app.cpp:4133-4308 | with identifiers to spare the start-up tab is entered exactly when every tab projects and the snapshot has it |
| `TopologyStartup.ActiveTabStays` | app/app.cpp:4168-4308 | an active tab that the server still has stays active in its Space, whatever else the snapshot says and whether or not it applies, unless the start-up tab is entered in that Space |
| `TopologyStartup.FinishingMoves` | app/app.cpp:4246-4274 | where the active tab has no remote tab, the one that closing it made active stays so, and if there is none the first remote tab's one becomes active |
| `TopologyStartup.SecondTimeStays` | app/app.cpp:4133-4321 | applying a snapshot a second time, with whatever outcome, moves neither the active Space nor the active tab of any Space it names |
| `TopologySpaces.SpacesFollowServer` | app/app.cpp:4108-4117 | after the Space phase every local Space has the directory of its remote one, and its name if that has one |
| `TopologySpaces.ClosesExactly` | app/space_controller.cpp:140-167 | closing a Space takes it away exactly when it is not the only one and, if the user is in it, another has an active tab |
| `TopologySpaces.GoneSpacesClose` | app/app.cpp:4091-4106 | a bound Space stays bound exactly as long as it is open, and one whose remote Space is gone is still open only where it cannot be closed |
| `TopologySpaces.StaleTabsClose` | app/app.cpp:4276-4291 | the local tab of a remote one that is gone is closed, even in a Space that is gone too, unless it is the last of its Space; and it is remembered no more |
| `TabProjection.ProjectedTabLaw` | app/app.cpp:4347-4382 | the outcome a snapshot is applied with is that of the layout that came: names alone, or names and then a reconcile; the tab counts as projected when that layout is in place |
| `TopologyFocus.SnapshotKeepsFocus` | app/app.cpp:4047-4321 | applying a snapshot is a sequence of session operations; whatever becomes of its layouts it leaves every tab sound, and the focus with the focused host of the active tab of the active Space unless one of its projections loses or takes it |
| `TopologyApp.App.PlaceTabs` | app/app.cpp:4187-4244 | in place: tabs, map, claims and order after the loop over remote tabs |
| `TopologyApp.App.FinishTabs` | app/app.cpp:4246-4274 | in place: the tabs after closing, reordering and activating |
| `TopologyApp.App.CheckResolvable` | app/app.cpp:4135-4166 | the loops decide whether every Space resolves and no tab moved, and collect the live remote tabs |
| `TopologyApp.App.SweepTabs` | app/app.cpp:4276-4291 | in place: the session and the map after the sweep |
| `TopologyApp.App.ProjectRemoteTab` | app/app.cpp:4323-4383 | in place: name and panes of one projected tab |
| `TopologyApp.App.EnterStartupTab` | app/app.cpp:4293-4308 | in place: the start-up tab entered and forgotten once it is there, as `TopologyStartup.StartupOnce` states |
| `TopologyApp.App.CreateMissingSpaces` | app/app.cpp:4071-4089 | in place: a local Space made and bound for each remote one without, up to the first that cannot be made |
| `TopologyApp.App.CloseRemovedSpaces` | app/app.cpp:4091-4106 | in place: local Spaces of gone remote ones closed where possible, and only those forgotten |
| `TopologyApp.App.ApplyRemoteTabs` | app/app.cpp:4133-4321 | in place: the whole topology after the tab phase; what that means for the user is `TopologyStartup.StartupOnce` and `TopologyStartup.ActiveTabStays` |
| `TopologyApp.App.ApplyRemoteSpaces` | app/app.cpp:4047-4117 | in place: the whole topology after the Space phase |
| `TopologyApp.App.ApplyRemoteSnapshot` | app/app.cpp:4047-4131 | in place: a snapshot applied in both phases keeps a sound projection sound |
| `TopologyApp.App.Bind` | libs/draxul-client/src/topology_projection.cpp:17-32 | in place: both Space maps after a binding, former bindings of either side dropped |
| `AgentFence.SetAgentsKeeps` | app/agent_controller.cpp:36-79 | after a snapshot every fence names a projected agent at exactly the fenced generation, and fences and acknowledgements are of live agents; that none of those is lost is `AgentAttention.SnapshotAcks` |
| `AgentFence.NoteRestartKeeps` | app/agent_controller.cpp:90-129 | an accepted restart keeps the fences sound and every name in place |
| `AgentFence.RunKeepsFences` | app/agent_controller.cpp:36-129 | the fences are sound over every run |
| `AgentFence.FenceHolds` | app/agent_controller.cpp:36-79 | an operation that does not lift a fence leaves the fenced entry wholly unchanged |
| `AgentFence.RestartedStays` | app/agent_controller.cpp:36-129 | after a restart at g the entry is that of a new run of which nothing is known, in the same place, until a snapshot reaches g or omits the agent, or a clear or a further restart |
| `AgentFence.LiftedShowsSnapshot` | app/agent_controller.cpp:36-79 | a snapshot that reaches the fence is shown, and one that omits the agent removes it |
| `AgentFence.UnfencedShowsSnapshot` | app/agent_controller.cpp:36-79 | an agent without a fence is shown as the snapshot has it, at the same place |
| `AgentFence.ShowKeeps` | app/agent_controller.cpp:423-468 | showing agents keeps the fences sound, and a focused agent asks for no attention |
| `AgentFence.AttentionExactly` | app/agent_controller.cpp:423-468 | an agent is shown as wanting attention exactly when it wants it, is not focused, and its observation is newer than the acknowledged one |
| `AgentAttention.FocusedExactly` | app/agent_controller.cpp:430-448 | an agent is focused exactly when its pane is the focused one of the active tab of the active Space |
| `AgentAttention.FocusIsOne` | app/agent_controller.cpp:430-448 | two focused agents are in the same pane |
| `AgentAttention.SnapshotAcks` | app/agent_controller.cpp:66-77 | a snapshot keeps the acknowledgement of every agent it names, at its value, and drops exactly the others |
| `AgentAttention.FocusAcknowledges` | app/agent_controller.cpp:449-454 | an agent that is looked at while it wants attention is acknowledged at its observation |
| `AgentAttention.StepKeepsAck` | app/agent_controller.cpp:36-505 | an acknowledgement at n stands after exactly those operations that neither omit the agent, nor clear the state, nor look at it while it wants attention below n; that those take it away holds where no two agents have one name |
| `AgentAttention.AcknowledgedStaysQuiet` | app/agent_controller.cpp:36-505 | over every run of such operations the agent is never shown wanting attention at an observation up to n |
| `AgentAttention.AcknowledgementGoesBack` | app/agent_controller.cpp:449-454 | an agent acknowledged at 7, looked at again at 3, asks for attention at 5 |
| `AgentControllers.AgentController.SetServerAgents` | app/agent_controller.cpp:36-79 | in place: agents, fences and acknowledgements after a snapshot; none of an agent that it names is lost (`AgentAttention.SnapshotAcks`) |
| `AgentControllers.AgentController.NoteServerRestart` | app/agent_controller.cpp:90-129 | in place: agents and fences after a restart |
| `AgentControllers.AgentController.ClearServerAgents` | app/agent_controller.cpp:81-88 | in place: nothing projected, fenced or acknowledged |
| `AgentControllers.AgentController.AcknowledgeNavigation` | app/agent_controller.cpp:470-505 | in place: navigating to an agent acknowledges its observation, if its Space and tab can be activated |
| `AgentFence.ReachesExactly` | app/agent_controller.cpp:482-488 | an agent counts as reached exactly when activating its Space and then its tab succeeds |
| `AgentControllers.AgentController.ComputeServerAgents` | app/agent_controller.cpp:423-468 | in place: the agents shown and the acknowledgements made |
| `AgentDiscovery.ClearedOnSixth` | app/agent_controller.cpp:194-300 | after a sighting, within a generation and without user action, the identity is cleared exactly when six probes failed, at least 3000 ms after the sighting, and is unchanged until then |
| `AgentDiscovery.SightingShows` | app/agent_controller.cpp:228-285 | a probe that finds an agent that was not dismissed shows it: one of the kind shown before stays, any other gets an identity of its own, detected now |
| `AgentDiscovery.ManagedStays` | app/agent_controller.cpp:194-226 | an agent that Draxul started is neither probed for nor replaced |
| `AgentDiscovery.ProbesSparingly` | app/agent_controller.cpp:226-236 | a pane is probed only while its host runs, and not within half a second of the last probe in the same generation |
| `AgentDiscovery.DismissalHolds` | app/agent_controller.cpp:194-300 | a dismissed kind is not attached again while probes find only it or nothing, and never six times in a row nothing; at the sixth the dismissal ends |
| `AgentDiscovery.ReattachedExactly` | app/agent_controller.cpp:599-627 | after a dismissal an identity is attached again exactly by a probe that finds another kind, or any kind once six probes in a row had found nothing |
| `AgentDiscovery.NewGenerationForgets` | app/agent_controller.cpp:213-226 | a new runtime generation forgets the dismissal and drops an identity the user attached |
| `AgentDiscovery.AttachedStays` | app/agent_controller.cpp:557-597 | an identity the user attached is not probed or changed in its generation |
| `AgentDiscovery.AttachStands` | app/agent_controller.cpp:557-597 | what the user attached stays, with the record of that moment, and the pane is not probed, through every look in the same generation |
| `AgentDiscovery.AttachEnds` | app/agent_controller.cpp:213-226 | the first look in another generation drops it and shows what a probe finds then |
| `AgentDiscovery.DiscoveryTable.ScanPane` | app/agent_controller.cpp:194-300 | in place: record and identity of one pane after a look, all others unchanged |
| `AgentDiscovery.DiscoveryTable.ScanAll` | app/agent_controller.cpp:185-421 | in place: every pane looked at once, records of gone panes dropped |
| `AgentDiscovery.DiscoveryTable.AttachFocused` | app/agent_controller.cpp:557-597 | in place: the record and identity after a manual attach |
| `AgentDiscovery.DiscoveryTable.DismissFocused` | app/agent_controller.cpp:599-627 | in place: the record and identity after a dismissal |
| `EventJournal.RecordKeeps` | app/control_event_journal.cpp:16-25 | retained events are the latest, at most 256, numbered without gaps |
| `EventJournal.ReadLaw` | app/control_event_journal.cpp:80-109 | a read is refused exactly when an event after a nonzero cursor was evicted; otherwise it delivers the events right after the cursor, as many as there are or as the limit allows |
| `EventJournal.DeliveryIsGapless` | app/control_event_journal.cpp:16-109 | over any interleaving of records and reads a reader gets consecutive events, each once and in order |
| `EventJournal.LaggingReaderIsServed` | app/control_event_journal.cpp:80-109 | a reader no more than 256 events behind is never refused |
| `EventJournal.ObserveSourced` | app/control_event_journal.cpp:27-78 | after every look, replaying the whole stream from nothing gives generation, lifecycle and status of exactly the agents seen |
| `EventJournal.OtherSourced` | app/control_event_journal.cpp:16-25 | events recorded by others do not disturb what the stream says about agents |
| `EventClient.ClientRebuildsStates` | app/control_event_journal.cpp:16-109 | over any interleaving of looks, other events and reads, a client that began before anything was evicted and was never refused knows, by replaying what it was delivered, what the log up to its cursor says, and once caught up exactly the generation, lifecycle and status of every agent |
| `EventViews.ObserveMirrors` | app/control_event_journal.cpp:27-78 | after every look the Space last reported as entered, or the first one looked at when none was, is the Space looked at, and no focus last reported of an agent is wrong |
| `EventViews.ObservedAsIs` | app/control_event_journal.cpp:27-78 | after a look every agent is known with the generation, lifecycle, status and focus it had in it |
| `EventViews.ClientKnowsSpace` | app/control_event_journal.cpp:16-109 | a client served from the start that has caught up knows the active Space, given the one it began in, and the focus of every agent it was told of |
| `EventJournal.SecondLookRecordsNothing` | app/control_event_journal.cpp:27-78 | a second look at the same records nothing exactly when agents of one name are reported alike |
| `EventJournal.ControlEventJournal.Append` | app/control_event_journal.cpp:16-25 | in place: the log, the retained events and the counter after a record |
| `EventJournal.ControlEventJournal.ObserveAgents` | app/control_event_journal.cpp:27-78 | in place: events and known states after a look |
| `EventJournal.ControlEventJournal.Read` | app/control_event_journal.cpp:80-109 | the loop reads exactly the specified events |
| `MouseCapture.CaptureStaysOk` | app/input_dispatcher.cpp:457-492 | over any run nobody has the mouse exactly when no button is held |
| `MouseCapture.DragStaysWithHost` | app/input_dispatcher.cpp:442-711 | a press forwarded to a host has its next release, and everything between, forwarded to that host unless an overlay opens or the host dies |
| `MouseCapture.HeldExactly` | app/input_dispatcher.cpp:457-492 | over every run the buttons held are exactly the tracked ones pressed in a host whose release, an overlay, or the end of the host with the capture has not come since |
| `MouseCapture.UncapturedGoesToTarget` | app/input_dispatcher.cpp:442-711 | while no button is held a button goes to the overlay or to the host under the pointer, and a move to that host unless an overlay is open; exactly the press of a tracked button in a host captures the mouse, for that host |
| `InputDispatchers.InputDispatcher.OnMouseButton` | app/input_dispatcher.cpp:442-492 | in place: capture and recipient of a button event |
| `InputDispatchers.InputDispatcher.OnMouseMove` | app/input_dispatcher.cpp:689-711 | in place: capture and recipient of a move |
| `InputDispatchers.InputDispatcher.ClearHostIf` | app/input_dispatcher.cpp:874-880 | in place: a dying host keeps neither capture nor focus |
| `SmoothScroll.ScrollConserves` | app/input_dispatcher.cpp:797-824 | one smooth event sends unit steps, all one way, that with the remainder add up to what came in, the remainder less than a step and the same way |
| `SmoothScroll.ScrollRunConserves` | app/input_dispatcher.cpp:797-824 | the same over any run of smooth events |
| `SmoothScroll.SameTotalSameScroll` | app/input_dispatcher.cpp:797-824 | runs with equal totals scroll alike to within less than two steps, however they are cut into events |
| `SmoothScroll.PlainEventCuts` | app/input_dispatcher.cpp:797-824 | an event that is not smooth, or goes nowhere, is sent on as it came, and what follows is what a fresh start would send |
| `InputDispatchers.InputDispatcher.OnMouseWheel` | app/input_dispatcher.cpp:778-825 | in place: the loop sends exactly the specified steps |
| `AtlasRepair.RefreshIsHonest` | app/app.cpp:2826-2849 | in any run, a refresh reports success exactly when the present generation is the repaired one, and then no grid of any Space or tab is stale |
| `AtlasRepair.RunKeepsScene` | app/app.cpp:2826-2849 | over any run, if the present generation is the repaired one no grid is stale |
| `AtlasRepair.BehindExactly` | libs/draxul-runtime-support/src/grid_rendering_pipeline.cpp:267-321 | after a pass a grid is below the generation the pass set out to repair exactly when it was before and its draw did not settle: it had something to draw, its second attempt reset the atlas, and its first did too or found the note of an earlier reset |
| `AtlasRepair.RefreshSucceedsExactly` | app/app.cpp:2826-2849 | a refresh reports success exactly when there was nothing to repair or one of its three passes resets nothing |
| `AtlasRepair.PassesBehindExactly` | app/app.cpp:2826-2849 | after a refresh no grid is behind exactly when each that was before the last pass settled in it |
| `AtlasRepair.RunBehindExactly` | app/app.cpp:2826-2849 | over every run no grid is behind up to the first refresh in whose last pass a lagging grid does not settle, and one is after it |
| `AtlasRepair.GridCanFallBehind` | libs/draxul-runtime-support/src/grid_rendering_pipeline.cpp:267-321 | a run of four operations ends with a grid behind the generation recorded as repaired, after a refresh that reported failure |
| `AtlasRepair.AtlasConsumers.OnGlyphAtlasReset` | libs/draxul-runtime-support/src/grid_rendering_pipeline.cpp:267-321 | in place: the two drawing attempts of one grid |
| `AtlasRepair.AtlasConsumers.RefreshSharedAtlasConsumers` | app/app.cpp:2826-2849 | in place: the passes over all hosts |
| `PluginReload.ReloadIsAtomic` | app/app.cpp:5235-5346 | whatever became of the hosts before: a reload succeeds exactly when every host is live and takes the candidate, and then all run it; after a failure none counts as reloaded, each live host runs what it ran exactly when it is put back, and a dead one is left alone |
| `PluginReload.BackExactlyWhen` | libs/draxul-host/src/plugin_host.cpp:318-392 | when one host of a failed cohort runs its former build again, and that one without an instance stays as it was |
| `PluginReload.CleanRollback` | app/app.cpp:5287-5324 | if every call that puts a host back succeeds and a failing reload leaves its host as it was, every live host runs on as before |
| `PluginReload.DeadHostBlocksAll` | libs/draxul-host/src/plugin_host.cpp:318-326 | over any sequence of reloads, once one host has no instance none of them succeeds, and it stays without one |
| `PluginReload.OneFailedRollbackBlocksAll` | libs/draxul-host/src/plugin_host.cpp:370-391 | one host that starts neither the candidate nor the build before it makes every later reload of the plugin fail |
| `PluginReload.MoveAll` | app/app.cpp:5280-5333 | in place: hosts moved up to the first that fails |
| `PluginReload.RollBack` | app/app.cpp:5296-5306 | in place: hosts that had moved, put back the latest first |
| `PluginReload.Resume` | app/app.cpp:5307-5319 | in place: hosts that were only quiesced, started again |
| `PluginReload.ReloadPlugin` | app/app.cpp:5235-5346 | in place: every host and the summary after a reload |

## Left out

- Rendering, fonts, chrome, palettes, toasts, logging, JSON, sockets, processes and the session file codec.
- Error texts, warnings, viewports, divider ids, environment variables and the starting instants of hosts.
- Equality of local and remote Space lists: closing a stale active Space is refused when no other Space has an active tab, so only the tabs of a Space converge; how far the Spaces follow is `TopologySpaces.GoneSpacesClose`.
- How one remote tab's layout is converted, and the pane map and layout signatures kept for it; the layout that comes is an argument.
- Focus calls made by the input dispatcher when its host changes: they do not look at which tab is active.
- Host callbacks that come back into the manager or the dispatcher while an operation is under way.
- Generations across a shutdown or a restore, which reset the counter.
- Layouts not written by the program itself, in the laws of saving and restoring; only `PaneOrigins.RestoredOwn` takes all that pass the checks of a session file.
- Chrome hit tests, divider drags and reconfiguration of the dispatcher; the host an uncaptured event reaches is an argument.
- The semantic status of discovered agents and the screen manifests.
- State transfer, storage overlays and messages of a plugin reload.
- `app/control_request_policy.cpp`, `app/control_request_router.cpp`, `app/topology_mutation_route.cpp`, `app/gui_action_handler.cpp` and the build scripts; of the first only the clamp of the read limit is used, as the limit of at least one in the journal's laws.
- PaneSerials.IdentitiesNeverReused: is about local operations, because a projected layout brings the server's pane ids without raising the counter, and takes serials that fit 64 bits.
- PaneRuns.GenerationsNeverReused: ends where a failed reconcile goes back to a saved layout, because that starts the counter over.
- PaneReconcile.KeptExactlyWhenSameHost: speaks of the host object when the factory makes new objects, because an object handed out twice would count as kept.
- SessionRoundTrip.SessionRoundTrip: needs every host to start and host objects of different tabs to differ, because the code has no other way to tell them apart.
- TopologyRuns.RunKeepsTopology: takes snapshots whose Space ids differ, because decoding refuses others.
- TopologyHomes.ApplyTwice: takes layouts that are in place as an argument, and no start-up tab still waiting, because entering that one is a change.
- TopologyApp.App.ProjectRemoteTab: takes the conversion of the layout, the names, the reconcile and the commit as one outcome; what that outcome is, is `TabProjection.ProjectedTabLaw`.
- TopologyApp.App.ApplyRemoteTabs: does not prune the pane map and the layout signatures, which it does not hold.
- SessionRuns.RunKeepsGlobalFocus: takes host objects that are new when they are made, and restored layouts that passed the checks of a session file, because the code has no other way to tell panes apart.
- TopologyFocus.SnapshotKeepsFocus: says nothing of the focus after a projection that loses or takes it, because a later operation may give it back.
- AgentControllers.AgentController.AcknowledgeNavigation: makes the acknowledgement; the activations it depends on are those of the Space and tab controllers.
- AgentDiscovery.DiscoveryTable.ScanAll: does not build the semantic state and the projections made in the same loop, and takes panes whose routes differ; leaves without a host have no pane id and share the record of an empty one, which never leads to an identity.
- InputDispatchers.InputDispatcher.OnMouseButton: takes the host an uncaptured event reaches as an argument.
- InputDispatchers.InputDispatcher.OnMouseMove: takes the host an uncaptured move reaches as an argument and leaves divider drags out.
- InputDispatchers.InputDispatcher.OnMouseWheel: starts after the guards for overlays and chrome.
- AtlasRepair.AtlasConsumers.OnGlyphAtlasReset: takes what one drawing attempt does to the atlas as an argument.
- AgentDiscovery.ClearedOnSixth: counts from a sighting in the same runtime generation, because a new generation starts the count afresh.
- AtlasRepair.RefreshIsHonest: a grid that never drew counts as current, because it caches no glyph positions.
