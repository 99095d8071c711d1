/** Where the panes of a tab come from: a new tab creates them and a restored one
    reads them from a saved layout. Either way they are sound, and no host object
    is on two leaves. */
module PaneOrigins {
  import opened Identifiers
  import opened SplitTrees
  import opened PaneModel
  import opened PaneInvariants
  import opened PaneRoundTrip
  import opened TabModel
  import opened PaneFocus

  /// A tab that was created has one pane, with the one host it made.
  lemma CreatedOwn(deps: Deps, launch: Launch, m: HostMaker)
    requires Create(NO_PANES, deps, launch, m).1
    ensures Own(Create(NO_PANES, deps, launch, m).0)
  {
    CreateLaw(NO_PANES, deps, launch, m);
    CreatedNamed(deps, launch, m);
    var p := Create(NO_PANES, deps, launch, m).0;
    hide Create;
    hide NamedIds;
    ConsistentIsSound(p);
    OneLeaf(p);
  }

  lemma NoPanesOwn()
    ensures Own(NO_PANES)
  {}

  // ---------------------------------------------------------------------------
  // Restored panes

  /// What a session file is checked for when it is read: one pane for every leaf,
  /// each with a stable id of its own. A lone pane is not saved as zoomed.
  ghost predicate Checked(saved: LayoutSnapshot) {
    && Distinct(TreeLeaves(saved.tree)) && Distinct(LeavesOf(saved.panes))
    && Elements(LeavesOf(saved.panes)) == LeafSet(saved.tree)
    && (forall i :: 0 <= i < |saved.panes| ==> saved.panes[i].paneId != "")
    && (forall i, j :: 0 <= i < j < |saved.panes| ==> saved.panes[i].paneId != saved.panes[j].paneId)
    && (saved.zoomed ==> |saved.panes| >= 2)
  }

  lemma SavedIsChecked(saved: LayoutSnapshot)
    requires WellSaved(saved)
    ensures Checked(saved)
  {
    assert WellFormed(saved.tree);
    hide WellFormed;
  }

  /// Different leaves are given different host objects.
  ghost predicate LeavesApart(factory: LeafId -> HostMaker) {
    forall a, b :: a != b ==> MakerHosts(factory(a)) !! MakerHosts(factory(b))
  }

  /// Each leaf of a restored layout has a host that was made for it.
  lemma RestoredHosts(p: Panes, deps: Deps, saved: LayoutSnapshot, factory: LeafId -> HostMaker)
    requires Checked(saved) && LeavesApart(factory) && RestoreLayout(p, deps, saved, factory).1
    ensures var q := RestoreLayout(p, deps, saved, factory).0;
            && Injective(q.hosts) && q.hosts.Keys == LeafSet(saved.tree)
            && (forall id :: id in q.hosts ==> q.hosts[id] in MakerHosts(factory(id)))
  {
    hide LeafSet;
    hide AllStart;
    hide LeavesApart;
    hide RestoredUpTo;
    hide RestorePanes;
    hide Restore;
    hide Checked;
    hide Injective;
    RestoreUnfolds(p, deps, saved, factory);
    hide RestoreLayout;
    var base := Shutdown(p).(tree := Restore(saved.tree).value);
    var q := RestorePanes(base, deps, saved.panes, |saved.panes|, factory).0;
    RestoredBefore(base, deps, saved, factory);
    hide KeysRestored;
    RestoredApart(q, base, deps, saved, factory);
    forall id | id in q.hosts ensures q.hosts[id] in MakerHosts(factory(id)) {
      assert id in q.hosts.Keys;
      var i := PaneOf(q, base, deps, saved, factory, id);
    }
  }

  lemma RestoreUnfolds(p: Panes, deps: Deps, saved: LayoutSnapshot, factory: LeafId -> HostMaker)
    requires RestoreLayout(p, deps, saved, factory).1
    ensures Restore(saved.tree).Some?
    ensures var (q, ok) :=
              RestorePanes(Shutdown(p).(tree := Restore(saved.tree).value), deps, saved.panes, |saved.panes|, factory);
            ok && RestoreLayout(p, deps, saved, factory).0.hosts == q.hosts
  {
    hide Restore;
    hide RestorePanes;
  }

  /// The panes of a checked layout before the zoom is put back.
  lemma RestoredBefore(base: Panes, deps: Deps, saved: LayoutSnapshot, factory: LeafId -> HostMaker)
    requires Checked(saved) && Blank(base) && Restore(saved.tree) == Some(base.tree)
    requires RestorePanes(base, deps, saved.panes, |saved.panes|, factory).1
    ensures AllStart(deps, saved.panes, factory)
    ensures var q := RestorePanes(base, deps, saved.panes, |saved.panes|, factory).0;
            && RestoredUpTo(q, base, deps, saved.panes, |saved.panes|, factory)
            && KeysRestored(q, base, LeafSet(saved.tree)) && q.hosts.Keys == LeafSet(saved.tree) == q.paneIds.Keys
            && WellFormed(q.tree) && LeafSet(q.tree) == LeafSet(saved.tree) && |TreeLeaves(q.tree)| == |saved.panes|
  {
    RestoreLaw(saved.tree);
    CheckedLeaves(saved, base.tree);
    hide Restore;
    hide RestorePanes;
    hide WellFormed;
    hide LeafSet;
    hide TreeLeaves;
    hide Distinct;
    hide AllStart;
    hide RestoredUpTo;
    StartsAll(base, deps, saved.panes, factory);
    RestorePanesLaw(base, deps, saved.panes, |saved.panes|, factory);
    RestoredKeys(RestorePanes(base, deps, saved.panes, |saved.panes|, factory).0, base, deps, saved.panes, factory);
    hide Injective;
  }

  /// A checked layout that is restored gives sound panes, however its focus, its
  /// ratios and the order of its panes were saved.
  lemma RestoredOwn(deps: Deps, saved: LayoutSnapshot, factory: LeafId -> HostMaker)
    requires Checked(saved) && LeavesApart(factory) && RestoreLayout(NO_PANES, deps, saved, factory).1
    ensures Own(RestoreLayout(NO_PANES, deps, saved, factory).0)
  {
    var base := Shutdown(NO_PANES).(tree := Restore(saved.tree).value);
    var q := RestorePanes(base, deps, saved.panes, |saved.panes|, factory).0;
    hide RestorePanes;
    hide WellFormed;
    hide LeafSet;
    hide TreeLeaves;
    hide AllStart;
    hide RestoredUpTo;
    RestoredBefore(base, deps, saved, factory);
    RestoredTables(q, base, deps, saved, factory);
    hide Restore;
    hide Distinct;
    hide RestoreZoom;
    hide KeysRestored;
    UntouchedPreview(q, base, LeafSet(saved.tree));
    ZoomedOwn(q, saved);
  }

  lemma UntouchedPreview(q: Panes, base: Panes, done: set<LeafId>)
    requires KeysRestored(q, base, done)
    ensures q.previewLeaf == base.previewLeaf && q.previewOwner == base.previewOwner
  {}

  lemma CheckedLeaves(saved: LayoutSnapshot, tree: SplitTree)
    requires Checked(saved) && TreeLeaves(tree) == TreeLeaves(saved.tree)
    ensures LeafSet(tree) == LeafSet(saved.tree) && LeavesOf(saved.panes)[..|saved.panes|] == LeavesOf(saved.panes)
    ensures forall i :: 0 <= i < |saved.panes| ==> saved.panes[i].leaf in TreeLeaves(tree)
    ensures |TreeLeaves(tree)| == |saved.panes|
  {
    forall i | 0 <= i < |saved.panes| ensures saved.panes[i].leaf in TreeLeaves(tree) {
      assert LeavesOf(saved.panes)[i] in Elements(LeavesOf(saved.panes));
    }
    DistinctCount(TreeLeaves(saved.tree));
    DistinctCount(LeavesOf(saved.panes));
  }

  lemma StartsAll(base: Panes, deps: Deps, panes: seq<PaneSnapshot>, factory: LeafId -> HostMaker)
    requires RestorePanes(base, deps, panes, |panes|, factory).1
    ensures AllStart(deps, panes, factory)
  {
    hide RestorePanes;
    hide StartsAs;
    hide RuntimeLaunch;
    RestorePanesNeedsAll(base, deps, panes, |panes|, factory);
    forall i | 0 <= i < |panes|
      ensures StartsAs(deps, RuntimeLaunch(deps, panes[i]), i == 0, false, factory(panes[i].leaf)).Some?
    {
      assert HostOf(deps, panes, i, factory).Some?;
    }
  }

  lemma RestoredTables(q: Panes, base: Panes, deps: Deps, saved: LayoutSnapshot, factory: LeafId -> HostMaker)
    requires Checked(saved) && LeavesApart(factory) && AllStart(deps, saved.panes, factory)
    requires KeysRestored(q, base, LeafSet(saved.tree))
             && RestoredUpTo(q, base, deps, saved.panes, |saved.panes|, factory)
    ensures Backed(q) && NamedIds(q) && Injective(q.paneIds) && Injective(q.hosts)
            && q.hosts.Keys == LeafSet(saved.tree)
  {
    hide LeafSet;
    hide RestoredUpTo;
    hide AllStart;
    hide LeavesApart;
    hide Injective;
    forall id | id in LeafSet(saved.tree) ensures q.paneIds[id] != "" {
      var i := PaneOf(q, base, deps, saved, factory, id);
    }
    RestoredApart(q, base, deps, saved, factory);
  }

  lemma RestoredApart(q: Panes, base: Panes, deps: Deps, saved: LayoutSnapshot, factory: LeafId -> HostMaker)
    requires Checked(saved) && LeavesApart(factory) && AllStart(deps, saved.panes, factory)
    requires q.hosts.Keys == LeafSet(saved.tree) == q.paneIds.Keys
    requires RestoredUpTo(q, base, deps, saved.panes, |saved.panes|, factory)
    ensures Injective(q.paneIds) && Injective(q.hosts)
  {
    hide LeafSet;
    hide RestoredUpTo;
    hide AllStart;
    forall a, b | a in LeafSet(saved.tree) && b in LeafSet(saved.tree) && a != b
      ensures q.paneIds[a] != q.paneIds[b] && q.hosts[a] != q.hosts[b]
    {
      var i := PaneOf(q, base, deps, saved, factory, a);
      var j := PaneOf(q, base, deps, saved, factory, b);
      assert MakerHosts(factory(a)) !! MakerHosts(factory(b));
    }
  }

  /// The saved pane of a leaf, and what it gave the leaf.
  lemma PaneOf(q: Panes, base: Panes, deps: Deps, saved: LayoutSnapshot, factory: LeafId -> HostMaker, id: LeafId)
    returns (i: nat)
    requires Checked(saved) && AllStart(deps, saved.panes, factory) && id in LeafSet(saved.tree)
    requires RestoredUpTo(q, base, deps, saved.panes, |saved.panes|, factory)
    ensures i < |saved.panes| && saved.panes[i].leaf == id
    ensures id in q.paneIds && q.paneIds[id] == saved.panes[i].paneId
    ensures id in q.hosts && q.hosts[id] in MakerHosts(factory(id))
  {
    hide KeysRestored;
    hide StartsAs;
    hide RuntimeLaunch;
    assert id in Elements(LeavesOf(saved.panes));
    i :| 0 <= i < |LeavesOf(saved.panes)| && LeavesOf(saved.panes)[i] == id;
    assert HostOf(deps, saved.panes, i, factory).Some?;
    assert PaneRestored(q, base, deps, saved.panes[i], HostOf(deps, saved.panes, i, factory).value);
    StartsAsMade(deps, RuntimeLaunch(deps, saved.panes[i]), i == 0, false, factory(id));
  }

  lemma ZoomedOwn(q: Panes, saved: LayoutSnapshot)
    requires Backed(q) && NamedIds(q) && Injective(q.paneIds) && Injective(q.hosts)
    requires WellFormed(q.tree) && q.hosts.Keys == LeafSet(q.tree) && (saved.zoomed ==> |TreeLeaves(q.tree)| >= 2)
    requires q.previewLeaf == INVALID_LEAF && q.previewOwner == INVALID_LEAF
    ensures Own(RestoreZoom(q, saved))
  {
    SetFocusedLaw(q.tree, saved.zoomedLeaf);
    hide WellFormed;
    hide Injective;
    hide SetFocused;
    hide Backed;
    hide NamedIds;
  }
}
