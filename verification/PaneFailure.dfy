/** Every outcome of applying an authoritative layout, the failed ones included. */
module PaneFailure {
  import opened Identifiers
  import opened SplitTrees
  import opened PaneNames
  import opened PaneModel
  import opened PaneInvariants
  import opened PaneRoundTrip
  import opened PaneReconcile
  import opened PaneApply
  import opened PaneSound

  /// The loop over the panes ended at leaf id, whose host does not start; r is the
  /// state before that turn, with the leaves in done applied.
  ghost predicate StuckAt(p: Panes, deps: Deps, snap: LayoutSnapshot, factory: LeafId -> HostMaker,
                          r: Panes, done: set<LeafId>, id: LeafId, primary: bool, q: Panes)
    requires Restore(snap.tree).Some?
  {
    && Progress(p, deps, snap, factory, r, done)
    && id in ByLeaf(snap.panes) && id !in done && (id in r.hosts ==> id in r.launches)
    && ApplyLeaf(r, deps, ByLeaf(snap.panes)[id], primary, factory(id)) == (q, false)
  }

  ghost predicate Stuck(p: Panes, deps: Deps, snap: LayoutSnapshot, factory: LeafId -> HostMaker, q: Panes)
    requires Restore(snap.tree).Some?
  {
    exists r, done, id, primary :: StuckAt(p, deps, snap, factory, r, done, id, primary, q)
  }

  /// A rejected layout changes nothing. An accepted one is applied, or some host
  /// does not start: then the layout of entry is restored if it could be saved,
  /// and else the panes stay as the loop left them.
  ghost predicate Reconciled(p: Panes, deps: Deps, snap: LayoutSnapshot, factory: LeafId -> HostMaker,
                             cwd: LeafId -> string, again: LeafId -> HostMaker, q: Panes, ok: bool)
  {
    if !Accepts(snap) then !ok && q == p
    else if ok then Applied(p, deps, snap, factory, q)
    else
      && SomeHostFails(p, deps, snap, factory)
      && match SnapshotLayout(p, cwd)
         case Some(saved) => q == RestoreLayout(Stripped(p, snap), deps, saved, again).0
         case None => Stuck(p, deps, snap, factory, q)
  }

  // ---------------------------------------------------------------------------
  // Where the loop got stuck

  lemma FailedTurn(r: Panes, deps: Deps, pane: PaneSnapshot, primary: bool, m: HostMaker)
    requires pane.leaf in r.hosts ==> pane.leaf in r.launches
    requires !ApplyLeaf(r, deps, pane, primary, m).1
    ensures var q := ApplyLeaf(r, deps, pane, primary, m).0;
            && pane.leaf !in r.hosts
            && q == r.(paneIds := r.paneIds - {pane.leaf}, names := Named(r.names, pane.leaf, pane.name),
                       nextSerial := q.nextSerial)
  {
    hide Named;
    hide StartsAs;
    hide Completed;
    hide FreshSerial;
  }

  /// What one leaf records when the loop stops.
  ghost predicate LeafLeft(p: Panes, snap: LayoutSnapshot, q: Panes, x: LeafId, hosted: bool) {
    var wanted := ByLeaf(snap.panes);
    && (x in q.hosts <==> hosted) && (x in q.paneIds <==> hosted)
    && (hosted ==> x in q.launches) && (x in q.launches <==> x in q.generations)
    && (hosted ==> (x in wanted && q.paneIds[x] == wanted[x].paneId) || Lookup(p.paneIds, x) == Some(q.paneIds[x]))
    && (x in q.generations ==>
        Lookup(p.generations, x) == Some(q.generations[x]) || p.nextGeneration <= q.generations[x])
    && (x !in wanted ==> LeafOutside(p, q, x))
  }

  lemma AppliedLeft(p: Panes, deps: Deps, snap: LayoutSnapshot, factory: LeafId -> HostMaker, r: Panes, x: LeafId)
    requires x in ByLeaf(snap.panes) && LeafApplied(p, deps, snap, factory, r, ByLeaf(snap.panes)[x])
    ensures LeafLeft(p, snap, r, x, true)
  {
    hide StartsAs;
    hide Completed;
    hide Kept;
  }

  lemma PendingLeft(p: Panes, snap: LayoutSnapshot, r: Panes, x: LeafId)
    requires Backed(p) && LeafPending(p, snap, r, x)
    ensures LeafLeft(p, snap, r, x, x in r.hosts)
  {
    hide SameHost;
    hide Sourced;
    hide Injective;
    hide ByLeaf;
    assert x in p.hosts.Keys <==> x in p.paneIds.Keys;
    assert x in p.launches.Keys <==> x in p.generations.Keys;
    assert x in p.hosts.Keys ==> x in p.launches.Keys;
    hide Backed;
  }

  lemma LeftStays(p: Panes, snap: LayoutSnapshot, r: Panes, q: Panes, x: LeafId, hosted: bool)
    requires LeafLeft(p, snap, r, x, hosted) && SameLeaf(r, q, x)
    ensures LeafLeft(p, snap, q, x, hosted)
  {
    hide ByLeaf;
  }

  /// The failed turn itself records no more than the name.
  lemma TurnLeft(p: Panes, snap: LayoutSnapshot, r: Panes, q: Panes, id: LeafId, x: LeafId)
    requires id in ByLeaf(snap.panes) && id !in r.hosts && LeafLeft(p, snap, r, x, x in r.hosts)
    requires q == r.(paneIds := r.paneIds - {id}, names := q.names, nextSerial := q.nextSerial)
    requires forall y :: y != id ==> Lookup(q.names, y) == Lookup(r.names, y)
    ensures LeafLeft(p, snap, q, x, x in q.hosts)
  {
    hide ByLeaf;
    if x != id {
      hide LeafLeft;
      LeftStays(p, snap, r, q, x, x in r.hosts);
    }
  }

  /// One leaf after the loop got stuck.
  lemma StuckLeaf(p: Panes, deps: Deps, snap: LayoutSnapshot, factory: LeafId -> HostMaker,
                  r: Panes, done: set<LeafId>, id: LeafId, primary: bool, q: Panes, x: LeafId)
    requires Backed(p) && Restore(snap.tree).Some? && StuckAt(p, deps, snap, factory, r, done, id, primary, q)
    ensures LeafLeft(p, snap, q, x, x in q.hosts) && id !in q.hosts
    ensures x in q.hosts ==> x in ByLeaf(snap.panes)
  {
    hide Restore;
    hide Counted;
    hide Frame;
    hide ApplyLeaf;
    hide Backed;
    hide LeafLeft;
    hide LeafApplied;
    hide LeafPending;
    var pane := ByLeaf(snap.panes)[id];
    FailedTurn(r, deps, pane, primary, factory(id));
    LeafBefore(p, deps, snap, factory, r, done, x);
    TurnLeft(p, snap, r, q, id, x);
  }

  lemma LeafBefore(p: Panes, deps: Deps, snap: LayoutSnapshot, factory: LeafId -> HostMaker, r: Panes,
                   done: set<LeafId>, x: LeafId)
    requires Backed(p) && Restore(snap.tree).Some? && Progress(p, deps, snap, factory, r, done)
    ensures LeafLeft(p, snap, r, x, x in r.hosts)
    ensures x in r.hosts ==> x in ByLeaf(snap.panes)
  {
    hide Restore;
    hide Counted;
    hide Frame;
    hide LeafLeft;
    hide SameHost;
    hide StartsAs;
    if x in done {
      AppliedLeft(p, deps, snap, factory, r, x);
    } else {
      PendingLeft(p, snap, r, x);
    }
  }

  /// Getting stuck leaves a leaf of the new tree without a host; nothing else is
  /// wrong that applying the layout, or a wider one, does not put right.
  lemma StuckLaw(p: Panes, deps: Deps, snap: LayoutSnapshot, factory: LeafId -> HostMaker, q: Panes)
    requires Sound(p) && Accepts(snap) && Distinct(TreeLeaves(snap.tree)) && Stuck(p, deps, snap, factory, q)
    ensures Sound(q) && ZoomShown(q) && !Housed(q) && LeafSet(q.tree) == LeafSet(snap.tree)
    ensures Strays(q) <= Strays(p) + LeafSet(snap.tree)
    ensures PoliciesManaged(p) ==> PoliciesManaged(q)
    ensures p.nextGeneration <= q.nextGeneration
    ensures forall x :: x in q.generations ==>
              Lookup(p.generations, x) == Some(q.generations[x]) || p.nextGeneration <= q.generations[x]
  {
    var r, done, id, primary :| StuckAt(p, deps, snap, factory, r, done, id, primary, q);
    AcceptedPanesMatchTree(snap);
    AcceptedIds(snap);
    RestoreLaw(snap.tree);
    assert Backed(p) && NamedIds(p);
    hide *;
    StuckFrame(p, deps, snap, factory, r, done, id, primary, q);
    forall x ensures LeafLeft(p, snap, q, x, x in q.hosts) && (x in q.hosts ==> x in ByLeaf(snap.panes))
      && id !in q.hosts {
      StuckLeaf(p, deps, snap, factory, r, done, id, primary, q, x);
    }
    LeftTables(p, snap, q);
    LeftStrays(p, snap, q);
    SameLeafSets(q.tree, snap.tree);
    MissingHost(q, id);
  }

  lemma MissingHost(q: Panes, id: LeafId)
    requires WellFormed(q.tree) && Backed(q) && NamedIds(q) && id in LeafSet(q.tree) && id !in q.hosts
    requires forall x :: x in q.hosts ==> x in LeafSet(q.tree)
    requires q.previewLeaf == INVALID_LEAF && q.previewOwner == INVALID_LEAF && !q.zoomed
             && q.zoomedLeaf == INVALID_LEAF
    ensures Sound(q) && ZoomShown(q) && !Housed(q)
  {
    hide WellFormed;
    hide Backed;
    hide LeafSet;
    hide NamedIds;
    hide Injective;
    var ids := LeafSet(q.tree);
    forall x | x in q.hosts.Keys ensures x in ids {
      assert x in q.hosts;
    }
    assert q.hosts.Keys <= ids && !(ids <= q.hosts.Keys);
  }

  /// What the failed turn and those before it leave alone.
  lemma StuckFrame(p: Panes, deps: Deps, snap: LayoutSnapshot, factory: LeafId -> HostMaker,
                   r: Panes, done: set<LeafId>, id: LeafId, primary: bool, q: Panes)
    requires Restore(snap.tree).Some? && StuckAt(p, deps, snap, factory, r, done, id, primary, q)
    ensures id in ByLeaf(snap.panes) && q.tree == Restore(snap.tree).value && !q.zoomed && q.zoomedLeaf == INVALID_LEAF
    ensures q.previewLeaf == INVALID_LEAF && q.previewOwner == INVALID_LEAF
    ensures PoliciesManaged(p) ==> PoliciesManaged(q)
    ensures p.nextGeneration <= q.nextGeneration
    ensures Injective(q.generations) && forall x :: x in q.generations ==> q.generations[x] < q.nextGeneration
  {
    hide Restore;
    hide ApplyLeaf;
    hide LeafApplied;
    hide LeafPending;
    hide KeptLeaves;
    hide Injective;
    FailedTurn(r, deps, ByLeaf(snap.panes)[id], primary, factory(id));
  }

  lemma LeftTables(p: Panes, snap: LayoutSnapshot, q: Panes)
    requires NamedIds(p) && forall x :: LeafLeft(p, snap, q, x, x in q.hosts)
    requires Injective(q.generations) && forall x :: x in q.generations ==> q.generations[x] < q.nextGeneration
    requires forall id :: id in ByLeaf(snap.panes) ==> ByLeaf(snap.panes)[id].paneId != ""
    ensures Backed(q) && NamedIds(q)
    ensures forall x :: x in q.generations ==>
              Lookup(p.generations, x) == Some(q.generations[x]) || p.nextGeneration <= q.generations[x]
  {
    hide ByLeaf;
    hide Injective;
    hide LeafOutside;
    forall x ensures (x in q.hosts <==> x in q.paneIds) && (x in q.hosts ==> x in q.launches)
      && (x in q.launches <==> x in q.generations) {
      assert LeafLeft(p, snap, q, x, x in q.hosts);
    }
    forall x | x in q.paneIds ensures q.paneIds[x] != "" {
      assert LeafLeft(p, snap, q, x, x in q.hosts);
    }
    forall x | x in q.generations
      ensures Lookup(p.generations, x) == Some(q.generations[x]) || p.nextGeneration <= q.generations[x]
    {
      assert LeafLeft(p, snap, q, x, x in q.hosts);
    }
    SameKeys(q.hosts, q.paneIds);
    SameKeys(q.launches, q.generations);
    assert q.hosts.Keys <= q.launches.Keys;
  }

  lemma LeftStrays(p: Panes, snap: LayoutSnapshot, q: Panes)
    requires forall x :: LeafLeft(p, snap, q, x, x in q.hosts)
    ensures Strays(q) <= Strays(p) + ByLeaf(snap.panes).Keys
  {
    hide Strays;
    forall x | x in Strays(q) ensures x in Strays(p) + ByLeaf(snap.panes).Keys {
      if x !in ByLeaf(snap.panes) {
        assert LeafLeft(p, snap, q, x, x in q.hosts);
        StrayOutside(p, q, x);
      }
    }
  }

  // ---------------------------------------------------------------------------
  // Every outcome

  /// Whatever a reconcile does, the panes stay sound. Once applied, only records
  /// of leaves outside the layout can be astray. After a failure tables and tree
  /// agree exactly when every leaf had its host at entry, the hosts of entry all
  /// start again, and no policy or session reference was recorded beside them.
  lemma ReconciledLaw(p: Panes, deps: Deps, snap: LayoutSnapshot, factory: LeafId -> HostMaker,
                      cwd: LeafId -> string, again: LeafId -> HostMaker, q: Panes, ok: bool)
    requires Sound(p) && Reconciled(p, deps, snap, factory, cwd, again, q, ok)
    requires Accepts(snap) ==> Distinct(TreeLeaves(snap.tree))
    ensures Sound(q)
    ensures SnapshotLayout(p, cwd).Some? <==> Housed(p)
    ensures ok ==> Housed(q) && ZoomShown(q) && Strays(q) == Strays(p) - LeafSet(snap.tree)
                   && (Consistent(q) <==> Strays(p) <= LeafSet(snap.tree))
    ensures Accepts(snap) && !ok ==>
              (Consistent(q) <==> Housed(p) && AllStart(deps, SnapshotLayout(p, cwd).value.panes, again)
                                  && p.policies.Keys + p.sessions.Keys <= LeafSet(p.tree))
    ensures Accepts(snap) && !ok ==> ZoomShown(q) && Strays(q) <= Strays(p) + LeafSet(q.tree)
    ensures Accepts(snap) && !ok ==> LeafSet(q.tree) == LeafSet(if Housed(p) then p.tree else snap.tree)
    ensures Accepts(snap) && !ok && !Housed(p) ==> Stuck(p, deps, snap, factory, q) && !Housed(q)
  {
    hide Sound;
    hide Applied;
    hide Stuck;
    hide SomeHostFails;
    hide Housed;
    hide Consistent;
    hide ZoomShown;
    hide Strays;
    hide AllStart;
    hide SnapshotLayout;
    hide RestoreLayout;
    hide LeafSet;
    SavedWhenHoused(p, cwd);
    if Accepts(snap) {
      AcceptedIds(snap);
      hide Accepts;
      hide Restore;
      if ok {
        AppliedOutcome(p, deps, snap, factory, q);
      } else if SnapshotLayout(p, cwd).Some? {
        RestoredOutcome(p, deps, snap, cwd, again);
      } else {
        StuckLaw(p, deps, snap, factory, q);
        ConsistentExactly(q);
      }
    }
  }

  lemma AppliedOutcome(p: Panes, deps: Deps, snap: LayoutSnapshot, factory: LeafId -> HostMaker, q: Panes)
    requires Sound(p) && Accepts(snap) && Distinct(TreeLeaves(snap.tree)) && Applied(p, deps, snap, factory, q)
    ensures Sound(q) && Housed(q) && ZoomShown(q) && Strays(q) == Strays(p) - LeafSet(snap.tree)
    ensures Consistent(q) <==> Strays(p) <= LeafSet(snap.tree)
  {
    assert Backed(p);
    hide Accepts;
    hide Restore;
    hide Applied;
    hide Sound;
    AppliedIsConsistent(p, deps, snap, factory, q);
    HousedIsSound(q);
  }

  lemma HousedIsSound(q: Panes)
    requires Housed(q) && NamedIds(q) && ZoomLive(q)
    ensures Sound(q)
  {
    hide Backed;
    hide Injective;
  }

  lemma RestoredOutcome(p: Panes, deps: Deps, snap: LayoutSnapshot, cwd: LeafId -> string, again: LeafId -> HostMaker)
    requires Sound(p) && Housed(p) && Accepts(snap) && SnapshotLayout(p, cwd).Some?
    ensures var saved := SnapshotLayout(p, cwd).value;
            var q := RestoreLayout(Stripped(p, snap), deps, saved, again).0;
            && Sound(q) && ZoomShown(q) && LeafSet(q.tree) == LeafSet(p.tree)
            && Strays(q) <= Strays(p) + LeafSet(p.tree)
            && (Consistent(q) <==>
                AllStart(deps, saved.panes, again) && p.policies.Keys + p.sessions.Keys <= LeafSet(p.tree))
  {
    assert NamedIds(p) && ZoomLive(p) && p.hosts.Keys == LeafSet(p.tree);
    hide Sound;
    hide Accepts;
    hide Restore;
    hide RestoreLayout;
    hide Stripped;
    hide SnapshotLayout;
    hide Consistent;
    hide ZoomShown;
    hide Strays;
    hide LeafSet;
    hide AllStart;
    hide NamedIds;
    FailedReconcileRestores(p, deps, snap, cwd, again);
    var saved := SnapshotLayout(p, cwd).value;
    var (q, ok) := RestoreLayout(Stripped(p, snap), deps, saved, again);
    RecordsOrStray(p);
    if ok {
      HousedIsSound(q);
      SameLeafSets(q.tree, p.tree);
    } else {
      EmptyIsSound(p, q);
    }
  }

  lemma RecordsOrStray(p: Panes)
    requires p.hosts.Keys == LeafSet(p.tree)
    ensures p.policies.Keys + p.sessions.Keys <= Strays(p) + LeafSet(p.tree)
  {}

  lemma EmptyIsSound(p: Panes, q: Panes)
    requires WellFormed(p.tree) && q.tree == p.tree && q == Shutdown(q) && !q.zoomed && q.zoomedLeaf == INVALID_LEAF
    ensures Sound(q) && ZoomShown(q)
  {
    assert p.tree.focused in LeafSet(p.tree);
    hide WellFormed;
  }

  /// After a failure the next layout that is applied puts everything right if it
  /// names the leaves the failure left in the tree and those astray before it; so
  /// applying the same layout again does, when nothing else was astray.
  lemma RetryHeals(p: Panes, deps: Deps, snap: LayoutSnapshot, factory: LeafId -> HostMaker,
                   cwd: LeafId -> string, again: LeafId -> HostMaker, q: Panes,
                   next: LayoutSnapshot, factory2: LeafId -> HostMaker, r: Panes)
    requires Sound(p) && Reconciled(p, deps, snap, factory, cwd, again, q, false)
    requires Accepts(snap) && Distinct(TreeLeaves(snap.tree)) && Accepts(next) && Distinct(TreeLeaves(next.tree))
    requires Applied(q, deps, next, factory2, r)
    requires LeafSet(q.tree) + Strays(p) <= LeafSet(next.tree)
    ensures Consistent(r) && ZoomShown(r) && LeafSet(r.tree) == LeafSet(next.tree)
  {
    hide Accepts;
    hide Sound;
    hide Strays;
    hide LeafSet;
    hide Consistent;
    hide ZoomShown;
    hide Applied;
    ReconciledLaw(p, deps, snap, factory, cwd, again, q, false);
    hide Reconciled;
    AcceptedIds(next);
    AppliedOutcome(q, deps, next, factory2, r);
    SoundIsBacked(q);
    AppliedIsConsistent(q, deps, next, factory2, r);
  }

  lemma SoundIsBacked(q: Panes)
    requires Sound(q)
    ensures Backed(q)
  {}

  /// The first projection of a tab whose only pane, named beforehand, cannot get
  /// a host: its leaf stays in the tree without one, and its name with it.
  lemma FirstProjectionCanStrand(deps: Deps, launch: Launch, factory: LeafId -> HostMaker, cwd: LeafId -> string)
    returns (snap: LayoutSnapshot, q: Panes)
    requires !ProjectsClientHost(launch) && factory(1).provider.None?
    ensures var p := SetName(NO_PANES, 1, "build");
            && Accepts(snap) && Distinct(TreeLeaves(snap.tree)) && Strays(p) <= LeafSet(snap.tree) && Sound(p)
            && Reconciled(p, deps, snap, factory, cwd, factory, q, false)
    ensures 1 in LeafSet(q.tree) && 1 !in q.hosts && 1 in Strays(q) && !Consistent(q)
  {
    var p := SetName(NO_PANES, 1, "build");
    NamedBeforehand();
    hide SetName;
    hide Progress;
    hide Accepts;
    hide Stuck;
    hide SomeHostFails;
    hide Sound;
    hide Backed;
    hide Strays;
    hide Consistent;
    hide Housed;
    hide LeafSet;
    hide ProjectsClientHost;
    snap := OnePaneLayout(launch);
    q := StuckAtOnce(p, deps, snap, factory);
    NothingToSave(p, cwd);
    hide SnapshotLayout;
    AcceptedIds(snap);
    hide Restore;
    StuckLaw(p, deps, snap, factory, q);
    NamedIsStray(q, 1);
    ConsistentExactly(q);
  }

  lemma NamedBeforehand()
    ensures var p := SetName(NO_PANES, 1, "build"); Sound(p) && Backed(p) && Strays(p) == {1} && p.hosts == map[]
  {}

  lemma NamedIsStray(q: Panes, id: LeafId)
    requires id in q.names && id !in q.hosts
    ensures id in Strays(q)
  {}

  /// A lone pane without a provider stops the loop at its first turn.
  lemma StuckAtOnce(p: Panes, deps: Deps, snap: LayoutSnapshot, factory: LeafId -> HostMaker) returns (q: Panes)
    requires Backed(p) && p.hosts == map[] && Accepts(snap) && 1 in ByLeaf(snap.panes)
    requires var pane := ByLeaf(snap.panes)[1];
             pane.leaf == 1 && pane.name != "" && !ProjectsClientHost(pane.launch) && factory(1).provider.None?
    ensures Stuck(p, deps, snap, factory, q) && SomeHostFails(p, deps, snap, factory)
    ensures 1 !in q.hosts && 1 in q.names
  {
    AcceptedIds(snap);
    var r, pane := Followers(p, snap), ByLeaf(snap.panes)[1];
    ProgressStart(p, deps, snap, factory);
    NobodyFollows(p, snap);
    q := ApplyLeaf(r, deps, pane, true, factory(1)).0;
    hide Accepts;
    hide Progress;
    hide Followers;
    NoProviderNoHost(deps, Completed(pane.launch, deps), factory(1));
    TurnWithoutHost(r, deps, pane, factory(1));
    hide ApplyLeaf;
    hide StartsAs;
    assert StuckAt(p, deps, snap, factory, r, {}, 1, true, q);
    assert StartsAs(deps, Completed(ByLeaf(snap.panes)[1].launch, deps), true, false, factory(1)).None?;
  }

  lemma NobodyFollows(p: Panes, snap: LayoutSnapshot)
    requires Restore(snap.tree).Some? && p.hosts == map[]
    ensures Followers(p, snap).hosts == map[]
  {
    hide Restore;
    hide KeptLeaves;
    hide SourcedLaunches;
  }

  lemma OnePaneLayout(launch: Launch) returns (snap: LayoutSnapshot)
    ensures Accepts(snap) && Distinct(TreeLeaves(snap.tree)) && LeafSet(snap.tree) == {1} && |snap.panes| == 1
    ensures snap.panes[0] == PaneSnapshot(1, launch, "build", "a", None, None, ResumeIfAvailable)
    ensures 1 in ByLeaf(snap.panes) && ByLeaf(snap.panes)[1] == snap.panes[0]
    ensures Restore(snap.tree).Some? && Restore(snap.tree).value.focused == 1
  {
    var pane := PaneSnapshot(1, launch, "build", "a", None, None, ResumeIfAvailable);
    snap := LayoutSnapshot(SplitTree(Some(Leaf(1)), 2, 1), [pane], false, INVALID_LEAF);
    assert pane in snap.panes;
    assert TreeLeaves(snap.tree) == [1];
  }

  lemma NoProviderNoHost(deps: Deps, launch: Launch, m: HostMaker)
    requires !ProjectsClientHost(launch) && m.provider.None?
    ensures StartsAs(deps, launch, true, false, m).None?
  {}

  lemma TurnWithoutHost(r: Panes, deps: Deps, pane: PaneSnapshot, m: HostMaker)
    requires pane.leaf !in r.hosts && StartsAs(deps, Completed(pane.launch, deps), true, false, m).None?
    ensures !ApplyLeaf(r, deps, pane, true, m).1
    ensures pane.name != "" ==> ApplyLeaf(r, deps, pane, true, m).0.names == r.names[pane.leaf := pane.name]
    ensures ApplyLeaf(r, deps, pane, true, m).0.hosts == r.hosts
  {
    hide FreshSerial;
    hide Completed;
    hide StartsAs;
  }

  lemma NothingToSave(p: Panes, cwd: LeafId -> string)
    requires p.hosts == map[]
    ensures SnapshotLayout(p, cwd).None?
  {}
}
