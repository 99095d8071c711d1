/** What every operation on a tab's panes keeps, and the run-level statements. */
module PaneInvariants {
  import opened Identifiers
  import opened SplitTrees
  import opened PaneNames
  import opened PaneModel

  ghost predicate Injective<V>(m: map<LeafId, V>) {
    forall a, b :: a in m && b in m && a != b ==> m[a] != m[b]
  }

  /// The parallel tables describe exactly the leaves of the tree.
  ghost predicate Tabled(p: Panes, ids: set<LeafId>) {
    && p.hosts.Keys == ids && p.launches.Keys == ids
    && p.paneIds.Keys == ids && p.generations.Keys == ids
  }

  /// Stable ids and runtime generations are unique; generations are below the counter.
  ghost predicate UniqueIds(p: Panes) {
    && Injective(p.paneIds) && Injective(p.generations)
    && (forall id :: id in p.generations ==> p.generations[id] < p.nextGeneration)
  }

  /// Optional records and the preview only name leaves of the tree.
  ghost predicate NoStrays(p: Panes, ids: set<LeafId>) {
    && p.names.Keys <= ids && p.agents.Keys <= ids && p.policies.Keys <= ids && p.sessions.Keys <= ids
    && PreviewOn(p, ids)
  }

  ghost predicate PreviewOn(p: Panes, ids: set<LeafId>) {
    && (p.previewLeaf != INVALID_LEAF ==> p.previewLeaf in ids && p.previewOwner in ids)
    && (p.previewLeaf == INVALID_LEAF ==> p.previewOwner == INVALID_LEAF)
  }

  ghost predicate Consistent(p: Panes) {
    && WellFormed(p.tree)
    && Tabled(p, LeafSet(p.tree))
    && UniqueIds(p)
    && NoStrays(p, LeafSet(p.tree))
  }

  /// A zoomed pane is a leaf of a tree with at least two leaves.
  ghost predicate ZoomLive(p: Panes) {
    if p.zoomed then p.zoomedLeaf in LeafSet(p.tree) && |TreeLeaves(p.tree)| >= 2
    else p.zoomedLeaf == INVALID_LEAF
  }

  /// While zoomed, the visible pane is the one that receives the keyboard.
  ghost predicate ZoomShown(p: Panes) {
    ZoomLive(p) && (p.zoomed ==> p.zoomedLeaf == p.tree.focused)
  }

  /// Every host has its launch, its stable id and its own generation.
  ghost predicate Backed(p: Panes) {
    && p.paneIds.Keys == p.hosts.Keys && p.hosts.Keys <= p.launches.Keys && p.launches.Keys == p.generations.Keys
    && Injective(p.generations)
    && (forall id :: id in p.generations ==> p.generations[id] < p.nextGeneration)
  }

  /// The leaves something is recorded for without a host.
  ghost function Strays(p: Panes): set<LeafId> {
    (p.launches.Keys + p.generations.Keys + p.names.Keys + p.agents.Keys + p.policies.Keys +
     p.sessions.Keys) - p.hosts.Keys
  }

  /// Every leaf of the tree has its host, and no other leaf has one.
  ghost predicate Housed(p: Panes) {
    && WellFormed(p.tree) && p.hosts.Keys == LeafSet(p.tree)
    && Backed(p) && Injective(p.paneIds) && PreviewOn(p, LeafSet(p.tree))
  }

  /// What holds in every state, also when a host could not be started or a name
  /// came before its pane: hosts are on leaves, each with its own records; the
  /// preview and a zoom are on leaves; and no two stable ids are alike once every
  /// leaf has its host.
  ghost predicate Sound(p: Panes) {
    Backed(p) && Rooted(p) && NamedIds(p) && (LeafSet(p.tree) <= p.hosts.Keys ==> Injective(p.paneIds))
  }

  ghost predicate Rooted(p: Panes) {
    && (p.tree == EMPTY || WellFormed(p.tree)) && p.hosts.Keys <= LeafSet(p.tree)
    && PreviewOn(p, LeafSet(p.tree)) && ZoomLive(p)
  }

  ghost predicate NamedIds(p: Panes) {
    forall id :: id in p.paneIds ==> p.paneIds[id] != ""
  }

  /// Restart policies are recorded with managed agents; others have the default.
  ghost predicate PoliciesManaged(p: Panes) {
    forall id :: id in p.policies && !(id in p.agents && p.agents[id].origin == Managed)
                 ==> p.policies[id] == ResumeIfAvailable
  }

  lemma SoundHoused(p: Panes)
    requires Sound(p)
    ensures Housed(p) <==> p.tree.root.Some? && LeafSet(p.tree) <= p.hosts.Keys
  {
    hide Injective;
    hide Backed;
  }

  lemma ConsistentIsSound(p: Panes)
    requires Consistent(p) && ZoomLive(p) && NamedIds(p)
    ensures Sound(p) && Housed(p) && Strays(p) == {}
  {
    ConsistentExactly(p);
    hide Injective;
    hide WellFormed;
  }

  /// Tables and tree agree exactly when every leaf has its host and nothing is
  /// recorded without one.
  lemma ConsistentExactly(p: Panes)
    ensures Consistent(p) <==> Housed(p) && Strays(p) == {}
  {
    hide WellFormed;
    hide Injective;
    hide PreviewOn;
    var ids := LeafSet(p.tree);
    if Housed(p) && Strays(p) == {} {
      NothingStray(p, ids);
    }
    if Consistent(p) {
      assert Tabled(p, ids) && NoStrays(p, ids);
      assert Strays(p) == {};
    }
  }

  lemma NothingStray(p: Panes, ids: set<LeafId>)
    requires p.hosts.Keys == ids && Strays(p) == {}
    ensures p.launches.Keys <= ids && p.generations.Keys <= ids
    ensures p.names.Keys <= ids && p.agents.Keys <= ids && p.policies.Keys <= ids && p.sessions.Keys <= ids
  {
    var recorded :=
      p.launches.Keys + p.generations.Keys + p.names.Keys + p.agents.Keys + p.policies.Keys + p.sessions.Keys;
    forall id | id in recorded ensures id in ids {
      assert id !in Strays(p);
    }
  }

  /// Everything recorded for one leaf is the same in both states.
  ghost predicate SameLeaf(p: Panes, q: Panes, id: LeafId) {
    && Lookup(q.hosts, id) == Lookup(p.hosts, id)
    && Lookup(q.launches, id) == Lookup(p.launches, id)
    && Lookup(q.names, id) == Lookup(p.names, id)
    && Lookup(q.paneIds, id) == Lookup(p.paneIds, id)
    && Lookup(q.agents, id) == Lookup(p.agents, id)
    && Lookup(q.policies, id) == Lookup(p.policies, id)
    && Lookup(q.sessions, id) == Lookup(p.sessions, id)
    && Lookup(q.generations, id) == Lookup(p.generations, id)
  }

  // ---------------------------------------------------------------------------
  // Creating and forgetting hosts

  lemma PaneIdIsNew(p: Panes, id: LeafId)
    requires Injective(p.paneIds)
    ensures Injective(WithPaneId(p, id).paneIds)
    ensures id !in p.paneIds ==> WithPaneId(p, id).paneIds[id] !in p.paneIds.Values
    ensures WithPaneId(p, id).paneIds - {id} == p.paneIds - {id}
  {
    FreshSerialLaw(p.paneIds.Values, p.nextSerial);
  }

  /// The other leaves are in every table.
  ghost predicate TabledBut(p: Panes, id: LeafId, ids: set<LeafId>) {
    && id !in ids
    && p.hosts.Keys - {id} == ids && p.launches.Keys - {id} == ids
    && p.paneIds.Keys - {id} == ids && p.generations.Keys - {id} == ids
  }

  /// The next generation, given to a leaf, is new.
  lemma GenerationAdded(m: map<LeafId, nat>, next: nat, id: LeafId, m': map<LeafId, nat>)
    requires Injective(m) && (forall x :: x in m ==> m[x] < next) && m' == m[id := next]
    ensures Injective(m') && forall x :: x in m' ==> m'[x] < next + 1
  {
    hide Injective;
    forall a, b | a in m' && b in m' && a != b ensures m'[a] != m'[b] {
      if a != id && b != id {
        TwoOf(m, a, b);
      }
    }
    FromPairs(m');
  }

  lemma TwoOf<V>(m: map<LeafId, V>, a: LeafId, b: LeafId)
    requires Injective(m) && a in m && b in m && a != b
    ensures m[a] != m[b]
  {}

  lemma FromPairs<V>(m: map<LeafId, V>)
    requires forall a, b :: a in m && b in m && a != b ==> m[a] != m[b]
    ensures Injective(m)
  {}

  lemma InstalledLaw(p: Panes, id: LeafId, host: HostId, launch: Launch, ids: set<LeafId>)
    requires UniqueIds(p) && TabledBut(p, id, ids) && id in p.paneIds
    ensures Tabled(Installed(p, id, host, launch), ids + {id})
    ensures UniqueIds(Installed(p, id, host, launch))
  {
    GenerationAdded(p.generations, p.nextGeneration, id, p.generations[id := p.nextGeneration]);
    hide Injective;
  }

  lemma WithPaneIdLaw(p: Panes, id: LeafId, ids: set<LeafId>)
    requires UniqueIds(p) && TabledBut(p, id, ids)
    ensures var q := WithPaneId(p, id);
            && UniqueIds(q) && TabledBut(q, id, ids) && id in q.paneIds && q.paneIds - {id} == p.paneIds - {id}
            && q == p.(paneIds := q.paneIds, nextSerial := q.nextSerial)
  {
    PaneIdIsNew(p, id);
    WithPaneIdOnly(p, id);
    hide Injective;
    hide FreshSerial;
  }

  lemma PaneIdDropped(p: Panes, q: Panes, id: LeafId)
    requires UniqueIds(p) && q == p.(paneIds := p.paneIds - {id}, nextSerial := q.nextSerial)
    ensures UniqueIds(q)
  {}

  /// Creating a host either completes the leaf in every table or leaves no
  /// trace of it but consumed serials.
  lemma CreateHostLaw(p: Panes, deps: Deps, id: LeafId, launch: Launch, primary: bool, preserve: bool,
                      m: HostMaker, ids: set<LeafId>)
    requires UniqueIds(p) && TabledBut(p, id, ids)
    ensures var (q, ok) := CreateHost(p, deps, id, launch, primary, preserve, m);
            var made := StartsAs(deps, launch, primary, preserve, m);
            && UniqueIds(q) && (ok <==> made.Some?)
            && (ok ==> Tabled(q, ids + {id}) && q == Installed(WithPaneId(p, id), id, made.value, launch))
            && (!ok ==> q == p.(paneIds := p.paneIds - {id}, nextSerial := q.nextSerial))
  {
    WithPaneIdLaw(p, id, ids);
    var p1 := WithPaneId(p, id);
    hide StartsAs;
    hide WithPaneId;
    hide UniqueIds;
    hide Tabled;
    hide TabledBut;
    var made := StartsAs(deps, launch, primary, preserve, m);
    if made.Some? {
      InstalledLaw(p1, id, made.value, launch, ids);
    } else {
      PaneIdDropped(p1, CreateHost(p, deps, id, launch, primary, preserve, m).0, id);
    }
  }

  /// Making a host touches the tables of hosts and ids alone.
  lemma CreateOnlyTables(p: Panes, deps: Deps, id: LeafId, launch: Launch, primary: bool, preserve: bool, m: HostMaker)
    ensures var (q, ok) := CreateHost(p, deps, id, launch, primary, preserve, m);
            && q == p.(hosts := q.hosts, launches := q.launches, paneIds := q.paneIds,
                       generations := q.generations, nextGeneration := q.nextGeneration, nextSerial := q.nextSerial)
            && (ok <==> StartsAs(deps, launch, primary, preserve, m).Some?)
            && (ok ==>
                  q.generations == p.generations[id := p.nextGeneration] && q.nextGeneration == p.nextGeneration + 1)
  {
    hide StartsAs;
    WithPaneIdOnly(p, id);
    hide WithPaneId;
  }

  lemma WithPaneIdOnly(p: Panes, id: LeafId)
    ensures var q := WithPaneId(p, id); q == p.(paneIds := q.paneIds, nextSerial := q.nextSerial)
  {
    hide FreshSerial;
  }

  lemma ForgetLaw(p: Panes, id: LeafId, ids: set<LeafId>)
    requires Tabled(p, ids) && UniqueIds(p)
    ensures Tabled(Forget(p, {id}), ids - {id}) && UniqueIds(Forget(p, {id}))
  {}

  lemma SetFocusedLaw(t: SplitTree, id: LeafId)
    requires WellFormed(t)
    ensures WellFormed(SetFocused(t, id)) && TreeLeaves(SetFocused(t, id)) == TreeLeaves(t)
    ensures SetFocused(t, id).focused == if id in LeafSet(t) then id else t.focused
  {}

  lemma UpdateFocusLaw(p: Panes, id: LeafId)
    requires Consistent(p)
    ensures var p' := UpdateFocus(p, id);
            && Consistent(p') && TreeLeaves(p'.tree) == TreeLeaves(p.tree)
            && p' == p.(tree := SetFocused(p.tree, id), zoomedLeaf := p'.zoomedLeaf)
            && p'.tree.focused == if id in LeafSet(p.tree) then id else p.tree.focused
  {
    SetFocusedLaw(p.tree, id);
    hide SetFocused;
    hide WellFormed;
    var p' := UpdateFocus(p, id);
    if p.tree.focused == id {
      assert p' == p && SetFocused(p.tree, id) == p.tree by { FocusedAlready(p.tree, id); }
    } else {
      SameLeavesConsistent(p, p');
    }
    hide Consistent;
  }

  lemma FocusedAlready(t: SplitTree, id: LeafId)
    requires t.focused == id
    ensures SetFocused(t, id) == t
  {}

  /// A tree with the same leaves fits the same tables.
  lemma SameLeavesConsistent(p: Panes, q: Panes)
    requires Consistent(p) && WellFormed(q.tree) && LeafSet(q.tree) == LeafSet(p.tree)
    requires q == p.(tree := q.tree, zoomed := q.zoomed, zoomedLeaf := q.zoomedLeaf)
    ensures Consistent(q)
  {
    hide WellFormed;
    hide LeafSet;
    hide Injective;
  }

  lemma UpdateFocusZoom(p: Panes, id: LeafId)
    requires p.hosts.Keys == LeafSet(p.tree)
    ensures ZoomLive(p) ==> ZoomLive(UpdateFocus(p, id))
    ensures ZoomShown(p) ==> ZoomShown(UpdateFocus(p, id))
  {
    assert TreeLeaves(SetFocused(p.tree, id)) == TreeLeaves(p.tree);
    assert id in p.hosts <==> id in LeafSet(p.tree);
    assert id in LeafSet(p.tree) ==> SetFocused(p.tree, id).focused == id;
    assert id !in LeafSet(p.tree) ==> SetFocused(p.tree, id) == p.tree;
    hide SetFocused;
    hide TreeLeaves;
  }

  lemma ToggleZoomLaw(p: Panes)
    requires Consistent(p) && ZoomLive(p)
    ensures Consistent(ToggleZoom(p)) && ZoomLive(ToggleZoom(p))
    ensures ZoomShown(p) ==> ZoomShown(ToggleZoom(p))
    ensures |TreeLeaves(p.tree)| >= 2 ==> ToggleZoom(p).zoomed == !p.zoomed
    ensures !p.zoomed ==> ToggleZoom(ToggleZoom(p)) == p
  {}

  lemma CreateLaw(p: Panes, deps: Deps, launch: Launch, m: HostMaker)
    requires !p.zoomed && p.zoomedLeaf == p.previewLeaf == p.previewOwner == INVALID_LEAF
    ensures var (p', ok) := Create(p, deps, launch, m);
            ok ==> Consistent(p') && ZoomShown(p') && LeafSet(p'.tree) == {0}
  {
    var p0 := NO_PANES.(tree := Reset(), zoomed := p.zoomed, zoomedLeaf := p.zoomedLeaf,
                        previewLeaf := p.previewLeaf, previewOwner := p.previewOwner);
    CreateHostLaw(p0, deps, 0, launch.(ptyCaptureFile := deps.ptyCaptureFile), true, false, m, {});
    assert LeafSet(p0.tree) == {0};
  }

  // ---------------------------------------------------------------------------
  // Split

  /// A split adds one leaf with fresh ids and focuses it; a failed one gives back
  /// the tree and every table, and consumes at most a leaf id and pane serials.
  lemma SplitLaw(p: Panes, deps: Deps, dir: Direction, launch: Launch, m: HostMaker)
    requires Consistent(p) && ZoomLive(p)
    ensures var (p', leaf) := SplitPane(p, deps, dir, launch, m);
            && Consistent(p') && ZoomLive(p') && (ZoomShown(p) ==> ZoomShown(p'))
            && (leaf != INVALID_LEAF ==>
                  && leaf !in LeafSet(p.tree) && LeafSet(p'.tree) == LeafSet(p.tree) + {leaf}
                  && p'.tree.focused == leaf && p'.paneIds[leaf] !in p.paneIds.Values
                  && p'.generations[leaf] == p.nextGeneration)
            && (leaf == INVALID_LEAF ==>
                  p' == p.(tree := p.tree.(nextId := p'.tree.nextId), nextSerial := p'.nextSerial))
  {
    var (tree, leaf) := SplitLeaf(p.tree, p.tree.focused, dir);
    if deps.allowLocalLayout && leaf != INVALID_LEAF {
      if StartsAs(deps, Completed(launch, deps), false, false, m).Some? {
        SplitSucceeds(p, deps, dir, launch, m);
      } else {
        SplitFails(p, deps, dir, launch, m);
      }
    }
  }

  lemma SplitSucceeds(p: Panes, deps: Deps, dir: Direction, launch: Launch, m: HostMaker)
    requires Consistent(p) && ZoomLive(p) && deps.allowLocalLayout
    requires SplitLeaf(p.tree, p.tree.focused, dir).1 != INVALID_LEAF
    requires StartsAs(deps, Completed(launch, deps), false, false, m).Some?
    ensures var (p', leaf) := SplitPane(p, deps, dir, launch, m);
            && Consistent(p') && ZoomShown(p')
            && leaf != INVALID_LEAF && leaf !in LeafSet(p.tree) && LeafSet(p'.tree) == LeafSet(p.tree) + {leaf}
            && p'.tree.focused == leaf && p'.paneIds[leaf] !in p.paneIds.Values
            && p'.generations[leaf] == p.nextGeneration
  {
    SplitMade(p, deps, dir, launch, m);
    var (tree, leaf) := SplitLeaf(p.tree, p.tree.focused, dir);
    var p1 := CreateHost(p.(tree := tree), deps, leaf, Completed(launch, deps), false, false, m).0;
    LeavesAreValid(p1.tree, leaf);
    LeavesAreValid(p.tree, p.tree.focused);
    assert SplitPane(p, deps, dir, launch, m) == (UpdateFocus(p1, leaf), leaf);
    hide SplitPane;
    hide CreateHost;
    hide SplitLeaf;
    hide WellFormed;
    UpdateFocusLaw(p1, leaf);
    SplitZoom(p, p1, leaf);
    hide UpdateFocus;
    hide Consistent;
  }

  /// The panes with the new host made and the focus not yet moved.
  lemma SplitMade(p: Panes, deps: Deps, dir: Direction, launch: Launch, m: HostMaker)
    requires Consistent(p) && SplitLeaf(p.tree, p.tree.focused, dir).1 != INVALID_LEAF
    requires StartsAs(deps, Completed(launch, deps), false, false, m).Some?
    ensures var (tree, leaf) := SplitLeaf(p.tree, p.tree.focused, dir);
            var (p1, ok) := CreateHost(p.(tree := tree), deps, leaf, Completed(launch, deps), false, false, m);
            && ok && Consistent(p1) && p1.tree == tree && p1.zoomed == p.zoomed && p1.zoomedLeaf == p.zoomedLeaf
            && p1.tree.focused == p.tree.focused && p.tree.focused in LeafSet(p.tree)
            && |TreeLeaves(p1.tree)| == |TreeLeaves(p.tree)| + 1
            && leaf !in LeafSet(p.tree) && LeafSet(p1.tree) == LeafSet(p.tree) + {leaf}
            && p1.paneIds[leaf] !in p.paneIds.Values && p1.generations[leaf] == p.nextGeneration
  {
    var (tree, leaf) := SplitLeaf(p.tree, p.tree.focused, dir);
    SplitLeafLaw(p.tree, p.tree.focused, dir);
    assert p.tree.focused in LeafSet(p.tree);
    var q := p.(tree := tree);
    PaneIdIsNew(q, leaf);
    ReadyFor(p, q, leaf);
    hide StartsAs;
    hide WellFormed;
    hide SplitLeaf;
    hide Consistent;
    hide UniqueIds;
    hide Tabled;
    hide TabledBut;
    hide LeafSet;
    hide Completed;
    CreateHostLaw(q, deps, leaf, Completed(launch, deps), false, false, m, LeafSet(p.tree));
    CreateOnlyTables(q, deps, leaf, Completed(launch, deps), false, false, m);
    var p1 := CreateHost(q, deps, leaf, Completed(launch, deps), false, false, m).0;
    hide CreateHost;
    GrownConsistent(p, p1, leaf);
  }

  lemma ReadyFor(p: Panes, q: Panes, leaf: LeafId)
    requires Consistent(p) && q == p.(tree := q.tree) && leaf !in LeafSet(p.tree)
    ensures UniqueIds(q) && TabledBut(q, leaf, LeafSet(p.tree)) && Injective(q.paneIds) && leaf !in q.paneIds
  {
    hide WellFormed;
    hide LeafSet;
    hide Injective;
    var ids := LeafSet(p.tree);
    assert ids - {leaf} == ids;
    assert leaf !in q.paneIds.Keys;
    assert q.hosts.Keys == ids && q.launches.Keys == ids && q.paneIds.Keys == ids && q.generations.Keys == ids;
  }

  /// One leaf more, in the tree and in every table.
  lemma GrownConsistent(p: Panes, q: Panes, leaf: LeafId)
    requires Consistent(p) && WellFormed(q.tree) && LeafSet(q.tree) == LeafSet(p.tree) + {leaf}
    requires Tabled(q, LeafSet(p.tree) + {leaf}) && UniqueIds(q)
    requires q.names == p.names && q.agents == p.agents && q.policies == p.policies && q.sessions == p.sessions
    requires q.previewLeaf == p.previewLeaf && q.previewOwner == p.previewOwner
    ensures Consistent(q)
  {
    hide WellFormed;
    hide UniqueIds;
    hide Tabled;
    hide LeafSet;
  }

  lemma SplitFails(p: Panes, deps: Deps, dir: Direction, launch: Launch, m: HostMaker)
    requires Consistent(p) && deps.allowLocalLayout
    requires SplitLeaf(p.tree, p.tree.focused, dir).1 != INVALID_LEAF
    requires StartsAs(deps, Completed(launch, deps), false, false, m).None?
    ensures var (p', leaf) := SplitPane(p, deps, dir, launch, m);
            leaf == INVALID_LEAF &&
            p' == p.(tree := p.tree.(nextId := p.tree.nextId + 1), nextSerial := p'.nextSerial)
    ensures WellFormed(p.tree.(nextId := p.tree.nextId + 1))
  {
    var (tree, leaf) := SplitLeaf(p.tree, p.tree.focused, dir);
    SplitLeafLaw(p.tree, p.tree.focused, dir);
    PaneIdIsNew(p.(tree := tree), leaf);
    assert p.paneIds - {leaf} == p.paneIds;
  }

  /// Focusing the new leaf carries an active zoom to it.
  lemma SplitZoom(p: Panes, p1: Panes, leaf: LeafId)
    requires ZoomLive(p) && Consistent(p1)
    requires p1.zoomed == p.zoomed && p1.zoomedLeaf == p.zoomedLeaf && p1.tree.focused == p.tree.focused
    requires LeafSet(p1.tree) == LeafSet(p.tree) + {leaf} && |TreeLeaves(p1.tree)| >= |TreeLeaves(p.tree)|
    requires leaf !in LeafSet(p.tree)
    requires p.tree.focused in LeafSet(p.tree)
    ensures ZoomShown(UpdateFocus(p1, leaf))
  {}

  // ---------------------------------------------------------------------------
  // Close

  lemma CloseLaw(p: Panes, deps: Deps, id: LeafId)
    requires Consistent(p)
    ensures var (p', ok) := ClosePane(p, deps, id);
            && (ok <==> deps.allowLocalLayout && |TreeLeaves(p.tree)| > 1 && id in LeafSet(p.tree))
            && (!ok ==> p' == p)
            && Consistent(p')
            && (ok ==> LeafSet(p'.tree) == LeafSet(p.tree) - {id} && |TreeLeaves(p'.tree)| == |TreeLeaves(p.tree)| - 1)
  {
    hide WellFormed;
    hide LeafSet;
    CloseLeafLaw(p.tree, id);
    if deps.allowLocalLayout && |TreeLeaves(p.tree)| > 1 && id in p.hosts {
      LeavesAreValid(p.tree, id);
      Forgotten(p, id, ClosePane(p, deps, id).0);
    }
  }

  lemma LeavesAreValid(t: SplitTree, id: LeafId)
    requires WellFormed(t) && id in LeafSet(t)
    ensures id != INVALID_LEAF && id in TreeLeaves(t)
  {}

  lemma Forgotten(p: Panes, id: LeafId, q: Panes)
    requires Consistent(p) && id != INVALID_LEAF
    requires WellFormed(q.tree) && LeafSet(q.tree) == LeafSet(p.tree) - {id}
    requires var unpreview := id == p.previewLeaf || id == p.previewOwner;
             q == Forget(p, {id}).(tree := q.tree, zoomed := q.zoomed, zoomedLeaf := q.zoomedLeaf,
                                   previewLeaf := if unpreview then INVALID_LEAF else p.previewLeaf,
                                   previewOwner := if unpreview then INVALID_LEAF else p.previewOwner)
    ensures Consistent(q)
  {
    ForgetLaw(p, id, LeafSet(p.tree));
  }

  lemma CloseZoom(p: Panes, deps: Deps, id: LeafId)
    requires WellFormed(p.tree) && p.hosts.Keys == LeafSet(p.tree) && ZoomLive(p)
    ensures ZoomLive(ClosePane(p, deps, id).0)
    ensures ZoomShown(p) ==> ZoomShown(ClosePane(p, deps, id).0)
  {
    CloseLeafLaw(p.tree, id);
  }

  // ---------------------------------------------------------------------------
  // Restart

  /// A restart keeps the tables in step exactly when the relaunch, or failing
  /// that the placeholder, starts.
  lemma RestartLaw(p: Panes, deps: Deps, id: LeafId, m: HostMaker)
    requires Consistent(p) && id in LeafSet(p.tree)
    ensures var (p', ok) := RestartPane(p, deps, id, m);
            && (ok <==> StartsAs(deps, p.launches[id], false, true, m).Some?)
            && (Consistent(p') <==> ok)
            && p'.tree == p.tree && p'.zoomed == p.zoomed && p'.zoomedLeaf == p.zoomedLeaf
            && (ok ==> p'.hosts[id] == StartsAs(deps, p.launches[id], false, true, m).value
                       && p'.generations[id] == p.nextGeneration && p'.launches[id] == p.launches[id])
            && (!ok ==> id !in p'.hosts && id !in p'.paneIds)
  {
    hide WellFormed;
    hide Injective;
    LeavesAreValid(p.tree, id);
    var q := p.(hosts := p.hosts - {id});
    CreateHostLaw(q, deps, id, p.launches[id], false, true, m, LeafSet(p.tree) - {id});
    hide CreateHost;
    hide StartsAs;
  }

  lemma CreatedNamed(deps: Deps, launch: Launch, m: HostMaker)
    requires Create(NO_PANES, deps, launch, m).1
    ensures NamedIds(Create(NO_PANES, deps, launch, m).0)
  {
    hide StartsAs;
    hide FreshSerial;
  }

  const STARTS := HostMaker(Some(1), true, 2, true)
  const NEVER_STARTS := HostMaker(Some(3), false, 4, false)

  /// A manager with one pane, as its creation leaves it.
  lemma OnePane(deps: Deps) returns (p: Panes)
    ensures Create(NO_PANES, deps, SplitLaunch(deps), STARTS) == (p, true)
    ensures Consistent(p) && ZoomShown(p) && !p.zoomed && TreeLeaves(p.tree) == [0] && p.tree.nextId == 1
    ensures Sound(p) && p.previewLeaf == INVALID_LEAF && p.hosts == map[0 := 1]
  {
    CreateLaw(NO_PANES, deps, SplitLaunch(deps), STARTS);
    CreatedNamed(deps, SplitLaunch(deps), STARTS);
    p := Create(NO_PANES, deps, SplitLaunch(deps), STARTS).0;
    hide WithPaneId;
    hide NamedIds;
    ConsistentIsSound(p);
    hide Sound;
    hide Housed;
    CreateOnlyTables(NO_PANES.(tree := Reset()), deps, 0, SplitLaunch(deps).(ptyCaptureFile := deps.ptyCaptureFile),
                     true, false, STARTS);
    hide CreateHost;
  }

  /// A restart that ends with no host: the leaf stays in the tree without one.
  lemma RestartCanStrandLeaf(deps: Deps) returns (p: Panes, m: HostMaker)
    requires deps.allowLocalLayout
    ensures Consistent(p) && 0 in LeafSet(p.tree) && !RestartPane(p, deps, 0, m).1
    ensures 0 in LeafSet(RestartPane(p, deps, 0, m).0.tree) && 0 !in RestartPane(p, deps, 0, m).0.hosts
  {
    p := OnePane(deps);
    m := NEVER_STARTS;
    RestartLaw(p, deps, 0, m);
  }

  // ---------------------------------------------------------------------------
  // Swap

  lemma NextLeafLaw(t: SplitTree)
    requires WellFormed(t)
    ensures var next := NextLeafAfter(t, t.focused);
            if |TreeLeaves(t)| < 2 then next == INVALID_LEAF
            else next in LeafSet(t) && next != t.focused && next != INVALID_LEAF
  {
    var ids := TreeLeaves(t);
    if |ids| >= 2 {
      var i := IndexOf(ids, t.focused);
      var j := (i + 1) % |ids|;
      assert ids[j] in ids && j != i;
      assert ids[i] != ids[j];
    }
  }

  /// A swap keeps every table. It hands the focus to the other pane without
  /// moving the zoom, so the zoomed pane stays the focused one exactly when
  /// there was no zoom.
  lemma SwapLaw(p: Panes, deps: Deps)
    requires Consistent(p) && ZoomShown(p)
    ensures var (p', ok) := SwapWithNext(p, deps);
            && Consistent(p') && ZoomLive(p')
            && (ok <==> deps.allowLocalLayout && |TreeLeaves(p.tree)| >= 2)
            && (ZoomShown(p') <==> !ok || !p.zoomed)
            && (ok ==> p'.tree.focused == NextLeafAfter(p.tree, p.tree.focused))
  {
    NextLeafLaw(p.tree);
    SwapLeavesLaw(p.tree, p.tree.focused, NextLeafAfter(p.tree, p.tree.focused));
  }

  lemma SwapKeepsZoomLive(p: Panes, deps: Deps)
    requires Consistent(p) && ZoomLive(p)
    ensures var p' := SwapWithNext(p, deps).0;
            Consistent(p') && ZoomLive(p') && p'.zoomed == p.zoomed && p'.zoomedLeaf == p.zoomedLeaf
  {
    NextLeafLaw(p.tree);
    SwapLeavesLaw(p.tree, p.tree.focused, NextLeafAfter(p.tree, p.tree.focused));
  }

  /// Two panes, one zoomed, then a swap: the keyboard goes to the hidden pane.
  lemma SwapCanHideFocus(deps: Deps) returns (p: Panes)
    requires deps.allowLocalLayout
    ensures Consistent(p) && ZoomShown(p)
    ensures SwapWithNext(p, deps).0.zoomed && SwapWithNext(p, deps).0.zoomedLeaf != SwapWithNext(p, deps).0.tree.focused
  {
    var p0 := OnePane(deps);
    p := ZoomedPair(p0, deps);
    SwapLaw(p, deps);
  }

  /// That pane split in two, and the new one zoomed.
  lemma ZoomedPair(p0: Panes, deps: Deps) returns (p: Panes)
    requires deps.allowLocalLayout && Consistent(p0) && ZoomShown(p0) && !p0.zoomed && p0.tree.nextId == 1
    ensures p == ToggleZoom(SplitPane(p0, deps, Vertical, SplitLaunch(deps), STARTS).0)
    ensures Consistent(p) && ZoomShown(p) && p.zoomed
  {
    hide SplitPane;
    hide Consistent;
    FirstSplit(p0, deps);
    var p1 := SplitPane(p0, deps, Vertical, SplitLaunch(deps), STARTS).0;
    ToggleZoomLaw(p1);
    p := ToggleZoom(p1);
  }

  lemma FirstSplit(p0: Panes, deps: Deps)
    requires deps.allowLocalLayout && Consistent(p0) && ZoomShown(p0) && !p0.zoomed && p0.tree.nextId == 1
    ensures var p1 := SplitPane(p0, deps, Vertical, SplitLaunch(deps), STARTS).0;
            && Consistent(p1) && ZoomShown(p1) && !p1.zoomed && |TreeLeaves(p1.tree)| >= 2
            && LeafSet(p1.tree) == LeafSet(p0.tree) + {1} && p1.tree.focused == 1
  {
    ShellStarts(deps);
    CanSplit(p0);
    hide StartsAs;
    hide SplitLaunch;
    hide WellFormed;
    SplitSucceeds(p0, deps, Vertical, SplitLaunch(deps), STARTS);
    SplitsToNext(p0, deps, SplitLaunch(deps));
    SplitUnzoomed(p0, deps, SplitLaunch(deps));
    hide SplitPane;
    var p1 := SplitPane(p0, deps, Vertical, SplitLaunch(deps), STARTS).0;
    TwoLeaves(p0.tree, p1.tree);
  }

  lemma ShellStarts(deps: Deps)
    ensures StartsAs(deps, Completed(SplitLaunch(deps), deps), false, false, STARTS) == Some(1)
  {}

  lemma CanSplit(p: Panes)
    requires Consistent(p) && p.tree.nextId == 1
    ensures SplitLeaf(p.tree, p.tree.focused, Vertical).1 == 1
  {
    hide Tabled;
    hide UniqueIds;
    hide NoStrays;
  }

  lemma SplitsToNext(p: Panes, deps: Deps, launch: Launch)
    ensures var leaf := SplitPane(p, deps, Vertical, launch, STARTS).1;
            leaf != INVALID_LEAF ==> leaf == p.tree.nextId
  {
    hide CreateHost;
    hide Completed;
    hide CloseLeaf;
    hide UpdateFocus;
  }

  lemma SplitUnzoomed(p: Panes, deps: Deps, launch: Launch)
    requires !p.zoomed
    ensures !SplitPane(p, deps, Vertical, launch, STARTS).0.zoomed
  {
    hide SplitLeaf;
    hide CloseLeaf;
    hide Completed;
    hide CreateHost;
    hide SetFocused;
    var (tree, leaf) := SplitLeaf(p.tree, p.tree.focused, Vertical);
    CreateOnlyTables(p.(tree := tree), deps, leaf, Completed(launch, deps), false, false, STARTS);
  }

  lemma TwoLeaves(t: SplitTree, t': SplitTree)
    requires WellFormed(t) && t.nextId == 1 && 1 in LeafSet(t') && LeafSet(t) <= LeafSet(t')
    ensures |TreeLeaves(t')| >= 2
  {
    assert 0 in LeafSet(t) by { assert t.focused in TreeLeaves(t); }
    assert 0 in TreeLeaves(t') && 1 in TreeLeaves(t');
  }

  // ---------------------------------------------------------------------------
  // Preview

  lemma ParentRatioLaw(t: SplitTree, id: LeafId, ratio: real)
    requires WellFormed(t)
    ensures WellFormed(SetParentRatio(t, id, ratio)) && TreeLeaves(SetParentRatio(t, id, ratio)) == TreeLeaves(t)
  {}

  /// Showing the preview changes nothing, forgets a preview that is gone, or splits
  /// one off.
  lemma ShowCases(p: Panes, deps: Deps, owner: LeafId, ratio: real, path: string, m: HostMaker)
    ensures var r := ShowPreview(p, deps, owner, ratio, path, m).0;
            r == p || r == PreviewChecked(p) || r == SplitOffPreview(PreviewChecked(p), deps, owner, ratio, path, m).0
  {
    hide SplitOffPreview;
    hide PreviewChecked;
  }

  /// Showing the preview adds at most one leaf and leaves the focus, and an
  /// active zoom, on an existing pane.
  lemma ShowPreviewLaw(p: Panes, deps: Deps, owner: LeafId, ratio: real, path: string, m: HostMaker)
    requires Consistent(p) && ZoomLive(p)
    ensures var (p', leaf) := ShowPreview(p, deps, owner, ratio, path, m);
            && Consistent(p') && ZoomLive(p') && (ZoomShown(p) ==> ZoomShown(p'))
            && (p'.tree.focused == owner || p'.tree.focused == p.tree.focused)
            && LeafSet(p.tree) <= LeafSet(p'.tree) <= LeafSet(p.tree) + {leaf}
            && (leaf != INVALID_LEAF ==> p'.previewLeaf == leaf && leaf in LeafSet(p'.tree))
  {
    hide SplitOffPreview;
    hide ZoomShown;
    if deps.allowLocalLayout && p.previewLeaf == INVALID_LEAF && owner in p.hosts {
      ShowFromOwner(p, deps, owner, ratio, path, m);
      hide Consistent;
    }
  }

  /// The preview is split off with the focus on its owner.
  lemma ShowFromOwner(p: Panes, deps: Deps, owner: LeafId, ratio: real, path: string, m: HostMaker)
    requires Consistent(p) && ZoomLive(p) && deps.allowLocalLayout && owner in p.hosts
    ensures var (p', leaf) := SplitOffPreview(p, deps, owner, ratio, path, m);
            && Consistent(p') && ZoomLive(p') && (ZoomShown(p) ==> ZoomShown(p'))
            && (if leaf == INVALID_LEAF then p'.tree.focused == p.tree.focused && LeafSet(p'.tree) == LeafSet(p.tree)
                else p'.tree.focused == owner && p'.previewLeaf == leaf && LeafSet(p'.tree) == LeafSet(p.tree) + {leaf})
  {
    var q := p.(tree := SetFocused(p.tree, owner));
    OnOwner(p, owner);
    hide Consistent;
    hide SplitPane;
    hide UpdateFocus;
    hide SetParentRatio;
    hide SetFocused;
    hide ZoomShown;
    hide ZoomLive;
    hide LeafSet;
    var launch := PreviewLaunch(path, p.paneIds[owner]);
    hide PreviewLaunch;
    var (p1, leaf) := SplitPane(q, deps, Horizontal, launch, m);
    SplitLaw(q, deps, Horizontal, launch, m);
    if leaf == INVALID_LEAF {
      FocusPutBack(p, p1, p.tree.focused);
    } else {
      PreviewSplitZoom(q, deps, launch, m);
      PreviewPlaced(p1, leaf, owner, ratio);
    }
  }

  lemma OnOwner(p: Panes, owner: LeafId)
    requires Consistent(p) && ZoomLive(p) && owner in p.hosts
    ensures var q := p.(tree := SetFocused(p.tree, owner));
            && Consistent(q) && ZoomLive(q) && LeafSet(q.tree) == LeafSet(p.tree)
            && owner in LeafSet(p.tree) && owner in p.paneIds
            && p.tree.focused in LeafSet(p.tree) && p.tree.focused != INVALID_LEAF
  {
    SetFocusedLaw(p.tree, owner);
    LeavesAreValid(p.tree, p.tree.focused);
    assert owner in p.hosts.Keys;
    hide SetFocused;
    hide Injective;
    hide WellFormed;
  }

  /// Undoing the move to the owner leaves the zoom where it was.
  lemma FocusPutBack(p: Panes, p1: Panes, id: LeafId)
    requires Consistent(p1) && ZoomLive(p1) && LeafSet(p1.tree) == LeafSet(p.tree) && id in LeafSet(p.tree)
    requires id == p.tree.focused && p1.zoomed == p.zoomed && p1.zoomedLeaf == p.zoomedLeaf
    ensures var p' := UpdateFocus(p1, id);
            && Consistent(p') && ZoomLive(p') && (ZoomShown(p) ==> ZoomShown(p'))
            && p'.tree.focused == id && LeafSet(p'.tree) == LeafSet(p.tree)
  {
    UpdateFocusLaw(p1, id);
    UpdateFocusZoom(p1, id);
  }

  lemma PreviewPlaced(p1: Panes, leaf: LeafId, owner: LeafId, ratio: real)
    requires Consistent(p1) && ZoomShown(p1) && leaf in LeafSet(p1.tree) && owner in LeafSet(p1.tree)
    requires leaf != INVALID_LEAF
    ensures var p2 := p1.(tree := SetParentRatio(p1.tree, leaf, ratio), previewLeaf := leaf, previewOwner := owner);
            var p' := UpdateFocus(p2, owner);
            && Consistent(p') && ZoomShown(p') && p'.tree.focused == owner && LeafSet(p'.tree) == LeafSet(p1.tree)
            && p'.previewLeaf == leaf
  {
    ParentRatioLaw(p1.tree, leaf, ratio);
    var p2 := p1.(tree := SetParentRatio(p1.tree, leaf, ratio), previewLeaf := leaf, previewOwner := owner);
    UpdateFocusLaw(p2, owner);
    UpdateFocusZoom(p2, owner);
  }

  /// After a successful split an active zoom is on the new leaf, wherever it was.
  lemma PreviewSplitZoom(q: Panes, deps: Deps, launch: Launch, m: HostMaker)
    requires Consistent(q) && ZoomLive(q) && deps.allowLocalLayout
    requires SplitPane(q, deps, Horizontal, launch, m).1 != INVALID_LEAF
    ensures ZoomShown(SplitPane(q, deps, Horizontal, launch, m).0)
  {
    if StartsAs(deps, Completed(launch, deps), false, false, m).Some? {
      SplitSucceeds(q, deps, Horizontal, launch, m);
    } else {
      SplitFails(q, deps, Horizontal, launch, m);
    }
  }

  lemma HidePreviewLaw(p: Panes, deps: Deps)
    requires Consistent(p) && ZoomLive(p)
    ensures var p' := HidePreview(p, deps);
            && Consistent(p') && ZoomLive(p') && (ZoomShown(p) ==> ZoomShown(p'))
            && (deps.allowLocalLayout ==> p'.previewLeaf == INVALID_LEAF)
  {
    if deps.allowLocalLayout && p.previewLeaf != INVALID_LEAF {
      var q := p.(previewLeaf := INVALID_LEAF, previewOwner := INVALID_LEAF);
      CloseLaw(q, deps, p.previewLeaf);
      CloseZoom(q, deps, p.previewLeaf);
      UpdateFocusLaw(ClosePane(q, deps, p.previewLeaf).0, p.previewOwner);
      UpdateFocusZoom(ClosePane(q, deps, p.previewLeaf).0, p.previewOwner);
    }
  }

  /// Hiding the preview of a tab that also shows another pane removes just that
  /// leaf, and gives the focus to the previewed pane while it is still shown.
  lemma HidePreviewPlace(p: Panes, deps: Deps)
    requires Consistent(p)
    requires deps.allowLocalLayout && p.previewLeaf in LeafSet(p.tree) && |TreeLeaves(p.tree)| > 1
    ensures var p' := HidePreview(p, deps);
            && LeafSet(p'.tree) == LeafSet(p.tree) - {p.previewLeaf}
            && (p.previewOwner in LeafSet(p'.tree) ==> p'.tree.focused == p.previewOwner)
  {
    var q := p.(previewLeaf := INVALID_LEAF, previewOwner := INVALID_LEAF);
    CloseLaw(q, deps, p.previewLeaf);
    LeavesAreValid(p.tree, p.previewLeaf);
    var p1 := ClosePane(q, deps, p.previewLeaf).0;
    UpdateFocusLaw(p1, p.previewOwner);
    if p.previewOwner in LeafSet(p1.tree) {
      LeavesAreValid(p1.tree, p.previewOwner);
    }
  }
}
