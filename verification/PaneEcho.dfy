/** A layout that shows what is there already: what a tab saves is accepted when it comes
    back as a projected layout, and changes no host and no record. */
module PaneEcho {
  import opened Identifiers
  import opened SplitTrees
  import opened PaneNames
  import opened PaneModel
  import opened PaneInvariants
  import opened PaneRoundTrip
  import opened PaneReconcile

  /// Every layout that has its leaves in a well-formed tree, one pane for each, all with
  /// different pane ids, is accepted.
  lemma SavedIsAccepted(saved: LayoutSnapshot)
    requires WellSaved(saved)
    ensures Accepts(saved)
  {
    hide WellFormed;
    hide Restore;
    hide ByLeaf;
    SavedLeaves(saved);
    EveryLeafHasPane(saved);
    DifferentIds(saved);
    assert |TreeLeaves(saved.tree)| == |LeavesOf(saved.panes)| == |saved.panes|;
    forall i | 0 <= i < |saved.panes| ensures saved.panes[i].leaf != INVALID_LEAF {
      ValidLeaf(saved, saved.panes[i].leaf);
    }
    assert saved.tree.root.Some? by { assert saved.panes[0].leaf in TreeLeaves(saved.tree); }
    hide WellSaved;
    hide LeavesOf;
    hide IdsOf;
    hide TreeLeaves;
    hide Distinct;
  }

  lemma EveryLeafHasPane(saved: LayoutSnapshot)
    requires LeavesOf(saved.panes) == TreeLeaves(saved.tree)
    ensures forall id :: id in TreeLeaves(saved.tree) ==> id in ByLeaf(saved.panes)
  {
    forall id | id in TreeLeaves(saved.tree) ensures id in ByLeaf(saved.panes) {
      var i := IndexOf(LeavesOf(saved.panes), id);
      assert saved.panes[i] in saved.panes;
    }
    hide ByLeaf;
  }

  lemma DifferentIds(saved: LayoutSnapshot)
    requires WellSaved(saved)
    ensures Distinct(IdsOf(saved.panes))
    ensures forall i :: 0 <= i < |saved.panes| ==> saved.panes[i].paneId != ""
  {
    hide WellFormed;
    hide LeavesOf;
    hide TreeLeaves;
  }

  lemma ValidLeaf(saved: LayoutSnapshot, id: LeafId)
    requires WellFormed(saved.tree) && id in TreeLeaves(saved.tree)
    ensures id != INVALID_LEAF
  {}

  /// The pane saved for a leaf is of the same host.
  lemma SavedKept(p: Panes, cwd: LeafId -> string, id: LeafId)
    requires Housed(p) && ZoomLive(p) && NamedIds(p) && id in LeafSet(p.tree)
    ensures SnapshotLayout(p, cwd).Some? && id in p.launches
    ensures var saved := SnapshotLayout(p, cwd).value;
            && Accepts(saved) && id in ByLeaf(saved.panes) && ByLeaf(saved.panes)[id] in saved.panes
            && ByLeaf(saved.panes)[id].leaf == id && ByLeaf(saved.panes)[id] == SavePane(p, id, cwd(id))
            && Kept(p, saved, id)
  {
    SnapshotIsWellSaved(p, cwd);
    SnapshotLeaves(p);
    var saved := SnapshotLayout(p, cwd).value;
    SavedIsAccepted(saved);
    InElements(TreeLeaves(p.tree));
    var i := IndexOf(TreeLeaves(p.tree), id);
    assert saved.panes[i] == SavePane(p, id, cwd(id));
    assert saved.panes[i] in saved.panes;
    hide WellSaved;
    hide WellFormed;
    ByLeafOf(saved, saved.panes[i]);
    hide Accepts;
    hide Injective;
    hide PreviewOn;
  }

  /// Applied to the tab it came from, a saved layout keeps the tree, every host with its
  /// generation, and what is recorded; only a zoom ends.
  lemma EchoChangesNothing(p: Panes, cwd: LeafId -> string, deps: Deps, factory: LeafId -> HostMaker, q: Panes)
    requires Housed(p) && ZoomLive(p) && NamedIds(p)
    requires SnapshotLayout(p, cwd).Some? && Accepts(SnapshotLayout(p, cwd).value)
    requires Applied(p, deps, SnapshotLayout(p, cwd).value, factory, q)
    ensures q.hosts == p.hosts && q.generations == p.generations && q.launches == p.launches && q.paneIds == p.paneIds
    ensures q.agents == p.agents && q.policies == p.policies && q.sessions == p.sessions
    ensures q.tree == p.tree && !q.zoomed && q.nextGeneration == p.nextGeneration
  {
    var saved := SnapshotLayout(p, cwd).value;
    hide SnapshotLayout;
    hide Accepts;
    hide Housed;
    hide ZoomLive;
    hide NamedIds;
    forall id ensures EchoAt(p, q, id) { LeafEchoed(p, cwd, deps, saved, factory, q, id); }
    SameTables(p, q);
    AllKept(p, cwd, saved);
    EchoedRest(p, cwd, deps, saved, factory, q);
    hide *;
  }

  ghost predicate EchoAt(p: Panes, q: Panes, id: LeafId) {
    && Lookup(q.hosts, id) == Lookup(p.hosts, id) && Lookup(q.generations, id) == Lookup(p.generations, id)
    && Lookup(q.launches, id) == Lookup(p.launches, id) && Lookup(q.paneIds, id) == Lookup(p.paneIds, id)
  }

  lemma LeafEchoed(p: Panes, cwd: LeafId -> string, deps: Deps, saved: LayoutSnapshot, factory: LeafId -> HostMaker,
                   q: Panes, id: LeafId)
    requires Housed(p) && ZoomLive(p) && NamedIds(p) && SnapshotLayout(p, cwd) == Some(saved)
    requires Accepts(saved) && Applied(p, deps, saved, factory, q)
    ensures EchoAt(p, q, id)
  {
    hide SnapshotLayout;
    AcceptedIds(saved);
    hide Accepts;
    hide Applied;
    hide Kept;
    hide ByLeaf;
    HousedTables(p, id);
    if id in LeafSet(p.tree) {
      SavedKept(p, cwd, id);
      LeafKept(p, deps, saved, factory, q, SavePane(p, id, cwd(id)));
      hide Followed;
    } else {
      NoPaneNoKey(p, cwd, saved, id);
      LeafLeft(p, deps, saved, factory, q, id);
    }
    hide Housed;
    hide ZoomLive;
    hide NamedIds;
  }

  lemma LeafKept(p: Panes, deps: Deps, saved: LayoutSnapshot, factory: LeafId -> HostMaker, q: Panes,
                 pane: PaneSnapshot)
    requires Restore(saved.tree).Some? && Applied(p, deps, saved, factory, q)
    requires pane in saved.panes && Kept(p, saved, pane.leaf)
    requires pane.leaf in p.hosts && pane.leaf in p.launches
    requires pane.launch.sourcePath == p.launches[pane.leaf].sourcePath
    requires pane.launch.companionOwner == p.launches[pane.leaf].companionOwner
    requires Lookup(p.paneIds, pane.leaf) == Some(pane.paneId)
    ensures EchoAt(p, q, pane.leaf)
  {
    hide Restore;
    hide Kept;
    hide StartsAs;
    assert LeafApplied(p, deps, saved, factory, q, pane);
    hide Applied;
  }

  lemma LeafLeft(p: Panes, deps: Deps, saved: LayoutSnapshot, factory: LeafId -> HostMaker, q: Panes, id: LeafId)
    requires Restore(saved.tree).Some? && Applied(p, deps, saved, factory, q)
    requires id !in ByLeaf(saved.panes) && id !in p.hosts
    ensures EchoAt(p, q, id)
  {
    hide Restore;
    hide ByLeaf;
    assert LeafOutside(p, q, id);
    hide Applied;
  }

  lemma HousedTables(p: Panes, id: LeafId)
    requires Housed(p)
    ensures (id in p.hosts <==> id in LeafSet(p.tree)) && (id in p.paneIds <==> id in p.hosts)
    ensures (id in p.launches <==> id in p.generations) && (id in p.hosts ==> id in p.launches)
  {
    hide WellFormed;
    hide Injective;
    assert id in p.hosts.Keys <==> id in LeafSet(p.tree);
    assert id in p.paneIds.Keys <==> id in p.hosts.Keys;
    assert id in p.launches.Keys <==> id in p.generations.Keys;
  }

  lemma NoPaneNoKey(p: Panes, cwd: LeafId -> string, saved: LayoutSnapshot, id: LeafId)
    requires SnapshotLayout(p, cwd) == Some(saved) && id !in LeafSet(p.tree)
    ensures id !in ByLeaf(saved.panes)
  {
    InElements(TreeLeaves(p.tree));
    forall i | 0 <= i < |saved.panes| ensures saved.panes[i].leaf != id {
      assert TreeLeaves(p.tree)[i] in TreeLeaves(p.tree);
    }
  }

  lemma SameTables(p: Panes, q: Panes)
    requires forall id :: EchoAt(p, q, id)
    ensures q.hosts == p.hosts && q.generations == p.generations && q.launches == p.launches && q.paneIds == p.paneIds
  {
    forall id
      ensures Lookup(q.hosts, id) == Lookup(p.hosts, id) && Lookup(q.generations, id) == Lookup(p.generations, id)
      ensures Lookup(q.launches, id) == Lookup(p.launches, id) && Lookup(q.paneIds, id) == Lookup(p.paneIds, id)
    {
      assert EchoAt(p, q, id);
    }
    hide EchoAt;
    SameLookups(p.hosts, q.hosts);
    SameLookups(p.generations, q.generations);
    SameLookups(p.launches, q.launches);
    SameLookups(p.paneIds, q.paneIds);
  }

  lemma SameLookups<V>(m: map<LeafId, V>, n: map<LeafId, V>)
    requires forall id :: Lookup(n, id) == Lookup(m, id)
    ensures n == m
  {
    forall id ensures id in n <==> id in m { assert Lookup(n, id) == Lookup(m, id); }
    forall id | id in n ensures n[id] == m[id] { assert Lookup(n, id) == Lookup(m, id); }
  }

  lemma AllKept(p: Panes, cwd: LeafId -> string, saved: LayoutSnapshot)
    requires Housed(p) && ZoomLive(p) && NamedIds(p) && SnapshotLayout(p, cwd) == Some(saved)
    ensures p.hosts.Keys - KeptLeaves(p, saved) == {} && ByLeaf(saved.panes).Keys == KeptLeaves(p, saved)
  {
    hide SnapshotLayout;
    hide Housed;
    hide ZoomLive;
    hide NamedIds;
    hide Kept;
    hide ByLeaf;
    forall id ensures (id in p.hosts ==> id in KeptLeaves(p, saved))
      ensures id in ByLeaf(saved.panes) <==> id in KeptLeaves(p, saved)
    {
      HousedTables(p, id);
      if id in LeafSet(p.tree) { SavedKept(p, cwd, id); } else { NoPaneNoKey(p, cwd, saved, id); }
    }
    hide KeptLeaves;
  }

  lemma EchoedRest(p: Panes, cwd: LeafId -> string, deps: Deps, saved: LayoutSnapshot, factory: LeafId -> HostMaker,
                   q: Panes)
    requires Housed(p) && SnapshotLayout(p, cwd) == Some(saved) && Accepts(saved)
    requires Applied(p, deps, saved, factory, q)
    requires p.hosts.Keys - KeptLeaves(p, saved) == {} && ByLeaf(saved.panes).Keys == KeptLeaves(p, saved)
    ensures q.agents == p.agents && q.policies == p.policies && q.sessions == p.sessions
    ensures q.tree == p.tree && !q.zoomed && q.nextGeneration == p.nextGeneration
  {
    RestoreLaw(p.tree);
    hide Restore;
    hide WellFormed;
    hide KeptLeaves;
    hide ByLeaf;
    hide LeafApplied;
    hide LeafOutside;
    hide Injective;
    hide IsPreviewOf;
    hide PreviewOn;
    NothingTaken(p.agents);
    NothingTaken(p.policies);
    NothingTaken(p.sessions);
    assert ByLeaf(saved.panes).Keys - KeptLeaves(p, saved) == {};
  }

  lemma NothingTaken<V>(m: map<LeafId, V>)
    ensures m - {} == m
  {}
}
