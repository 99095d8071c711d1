/** The loops of a reconcile, leaf by leaf, and why they end in an applied layout. */
module PaneApply {
  import opened Identifiers
  import opened SplitTrees
  import opened PaneNames
  import opened PaneModel
  import opened PaneInvariants
  import opened PaneRoundTrip
  import opened PaneReconcile

  /// Sets a name, or drops it when it is empty.
  function Named(m: map<LeafId, string>, id: LeafId, name: string): (r: map<LeafId, string>)
    ensures forall x :: x != id ==> Lookup(r, x) == Lookup(m, x)
    ensures Lookup(r, id) == if name == "" then None else Some(name)
    ensures r.Keys <= m.Keys + {id}
  {
    if name == "" then m - {id} else m[id := name]
  }

  /// Brings one leaf in line with its projected pane: ids and name first, then
  /// the companion of a live host or a new host.
  function ApplyLeaf(q: Panes, deps: Deps, pane: PaneSnapshot, isPrimary: bool, m: HostMaker): (Panes, bool)
    requires pane.leaf in q.hosts ==> pane.leaf in q.launches
  {
    var id := pane.leaf;
    var q1 := q.(paneIds := q.paneIds[id := pane.paneId],
                 names := Named(q.names, id, pane.name));
    if id in q.hosts then
      (q1.(launches := q1.launches[id := q1.launches[id].(companionOwner := pane.launch.companionOwner)]), true)
    else CreateHost(q1, deps, id, Completed(pane.launch, deps), isPrimary, false, m)
  }

  /// The launch of a kept leaf once Markdown sources are followed.
  function Sourced(live: Launch, wanted: Launch): Launch {
    live.(sourcePath := wanted.sourcePath)
  }

  /// A leaf whose turn has not come: a kept one is live, any other has no host.
  ghost predicate LeafPending(p: Panes, snap: LayoutSnapshot, q: Panes, id: LeafId) {
    if Kept(p, snap, id) then
      && Lookup(q.hosts, id) == Some(p.hosts[id])
      && Lookup(q.launches, id) == Some(Sourced(p.launches[id], ByLeaf(snap.panes)[id].launch))
      && id in p.generations && Lookup(q.generations, id) == Some(p.generations[id])
      && Lookup(q.paneIds, id) == Lookup(p.paneIds, id)
    else LeafOutside(p, q, id)
  }

  /// After the leaves in done: they are applied and the others are pending.
  ghost predicate Progress(p: Panes, deps: Deps, snap: LayoutSnapshot, factory: LeafId -> HostMaker, q: Panes,
                           done: set<LeafId>)
    requires Restore(snap.tree).Some?
  {
    var wanted := ByLeaf(snap.panes);
    && done <= wanted.Keys
    && (forall id :: id in done ==> LeafApplied(p, deps, snap, factory, q, wanted[id]))
    && (forall id :: id !in done ==> LeafPending(p, snap, q, id))
    && Counted(p, snap, q, done)
    && Frame(p, snap, q)
  }

  /// Generations are unique, and as many were issued as hosts were made.
  ghost predicate Counted(p: Panes, snap: LayoutSnapshot, q: Panes, done: set<LeafId>) {
    && Injective(q.generations)
    && (forall id :: id in q.generations ==> q.generations[id] < q.nextGeneration)
    && q.nextGeneration == p.nextGeneration + |done - KeptLeaves(p, snap)|
  }

  /// What the loop over the panes leaves alone.
  ghost predicate Frame(p: Panes, snap: LayoutSnapshot, q: Panes)
    requires Restore(snap.tree).Some?
  {
    var gone := p.hosts.Keys - KeptLeaves(p, snap);
    && q.tree == Restore(snap.tree).value && !q.zoomed && q.zoomedLeaf == INVALID_LEAF
    && q.previewLeaf == INVALID_LEAF && q.previewOwner == INVALID_LEAF
    && q.agents == p.agents - gone && q.policies == p.policies - gone && q.sessions == p.sessions - gone
  }

  lemma ApplyElsewhere(q: Panes, deps: Deps, pane: PaneSnapshot, primary: bool, m: HostMaker, id: LeafId)
    requires pane.leaf in q.hosts ==> pane.leaf in q.launches
    requires id != pane.leaf && ApplyLeaf(q, deps, pane, primary, m).1
    ensures SameLeaf(q, ApplyLeaf(q, deps, pane, primary, m).0, id)
  {
    hide Named;
    if pane.leaf !in q.hosts {
      var q1 := q.(paneIds := q.paneIds[pane.leaf := pane.paneId], names := Named(q.names, pane.leaf, pane.name));
      CreateElsewhere(q1, deps, pane.leaf, Completed(pane.launch, deps), primary, m, id);
      hide CreateHost;
    }
  }

  lemma CreateElsewhere(q: Panes, deps: Deps, at: LeafId, launch: Launch, primary: bool, m: HostMaker, id: LeafId)
    requires at in q.paneIds && id != at && CreateHost(q, deps, at, launch, primary, false, m).1
    ensures SameLeaf(q, CreateHost(q, deps, at, launch, primary, false, m).0, id)
  {
    hide StartsAs;
  }

  lemma AppliedStays(p: Panes, deps: Deps, snap: LayoutSnapshot, factory: LeafId -> HostMaker, q: Panes, q': Panes,
                     pane: PaneSnapshot)
    requires LeafApplied(p, deps, snap, factory, q, pane) && SameLeaf(q, q', pane.leaf)
             && q.nextGeneration <= q'.nextGeneration
    ensures LeafApplied(p, deps, snap, factory, q', pane)
  {
    hide StartsAs;
    hide Kept;
    hide Completed;
  }

  lemma PendingStays(p: Panes, snap: LayoutSnapshot, q: Panes, q': Panes, id: LeafId)
    requires LeafPending(p, snap, q, id) && SameLeaf(q, q', id)
    ensures LeafPending(p, snap, q', id)
  {
    hide Kept;
    hide Sourced;
  }

  /// Applying a pending leaf: a kept host stays and follows, another is made.
  lemma ApplyPending(p: Panes, deps: Deps, snap: LayoutSnapshot, factory: LeafId -> HostMaker, q: Panes,
                     pane: PaneSnapshot, primary: bool)
    requires ByLeaf(snap.panes).Keys >= {pane.leaf} && ByLeaf(snap.panes)[pane.leaf] == pane
    requires LeafPending(p, snap, q, pane.leaf) && p.nextGeneration <= q.nextGeneration
    ensures pane.leaf in q.hosts <==> Kept(p, snap, pane.leaf)
    ensures pane.leaf in q.hosts ==> pane.leaf in q.launches
    ensures var (q', ok) := ApplyLeaf(q, deps, pane, primary, factory(pane.leaf));
            && (ok ==> LeafApplied(p, deps, snap, factory, q', pane))
            && (Kept(p, snap, pane.leaf) ==> ok)
  {
    hide StartsAs;
    hide Completed;
    hide SameHost;
    hide ByLeaf;
    if Kept(p, snap, pane.leaf) {
      hide CreateHost;
    } else {
      hide Kept;
      StartsIgnoresPrimary(deps, Completed(pane.launch, deps), primary, factory(pane.leaf));
      hide FreshSerial;
    }
  }

  /// Whether a host counts as primary can only decide whether it starts at all.
  lemma StartsIgnoresPrimary(deps: Deps, launch: Launch, primary: bool, m: HostMaker)
    ensures StartsAs(deps, launch, primary, false, m).Some? ==>
              StartsAs(deps, launch, primary, false, m) == StartsAs(deps, launch, false, false, m)
  {}

  lemma ApplyCounted(p: Panes, deps: Deps, snap: LayoutSnapshot, q: Panes, pane: PaneSnapshot, primary: bool,
                     m: HostMaker, done: set<LeafId>)
    requires Counted(p, snap, q, done) && pane.leaf !in done
    requires pane.leaf in q.hosts <==> pane.leaf in KeptLeaves(p, snap)
    requires pane.leaf in q.hosts ==> pane.leaf in q.launches
    requires ApplyLeaf(q, deps, pane, primary, m).1
    ensures Counted(p, snap, ApplyLeaf(q, deps, pane, primary, m).0, done + {pane.leaf})
    ensures q.nextGeneration <= ApplyLeaf(q, deps, pane, primary, m).0.nextGeneration
  {
    hide KeptLeaves;
    hide Injective;
    ApplyGenerations(q, deps, pane, primary, m);
    var q' := ApplyLeaf(q, deps, pane, primary, m).0;
    hide ApplyLeaf;
    OneMore(KeptLeaves(p, snap), done, pane.leaf);
    if pane.leaf !in q.hosts {
      GenerationAdded(q.generations, q.nextGeneration, pane.leaf, q'.generations);
    }
  }

  lemma OneMore(kept: set<LeafId>, done: set<LeafId>, id: LeafId)
    requires id !in done
    ensures |(done + {id}) - kept| == |done - kept| + (if id in kept then 0 else 1)
  {
    if id in kept {
      assert (done + {id}) - kept == done - kept;
    } else {
      assert (done + {id}) - kept == (done - kept) + {id};
    }
  }

  lemma ApplyGenerations(q: Panes, deps: Deps, pane: PaneSnapshot, primary: bool, m: HostMaker)
    requires pane.leaf in q.hosts ==> pane.leaf in q.launches
    requires ApplyLeaf(q, deps, pane, primary, m).1
    ensures var q' := ApplyLeaf(q, deps, pane, primary, m).0;
            if pane.leaf in q.hosts then q'.generations == q.generations && q'.nextGeneration == q.nextGeneration
            else
              && q'.generations == q.generations[pane.leaf := q.nextGeneration]
              && q'.nextGeneration == q.nextGeneration + 1
  {
    hide StartsAs;
    hide Completed;
    hide Named;
    CreateOnlyTables(q.(paneIds := q.paneIds[pane.leaf := pane.paneId], names := Named(q.names, pane.leaf, pane.name)),
                     deps, pane.leaf, Completed(pane.launch, deps), primary, false, m);
    hide CreateHost;
  }

  lemma ApplyFrame(p: Panes, deps: Deps, snap: LayoutSnapshot, q: Panes, pane: PaneSnapshot, primary: bool,
                   m: HostMaker)
    requires Restore(snap.tree).Some? && Frame(p, snap, q)
    requires pane.leaf in q.hosts ==> pane.leaf in q.launches
    ensures Frame(p, snap, ApplyLeaf(q, deps, pane, primary, m).0)
  {
    hide Restore;
    hide KeptLeaves;
    ApplyOnlyTables(q, deps, pane, primary, m);
    hide ApplyLeaf;
  }

  /// Applying a leaf touches the tables of hosts and names alone.
  lemma ApplyOnlyTables(q: Panes, deps: Deps, pane: PaneSnapshot, primary: bool, m: HostMaker)
    requires pane.leaf in q.hosts ==> pane.leaf in q.launches
    ensures var q' := ApplyLeaf(q, deps, pane, primary, m).0;
            q' == q.(hosts := q'.hosts, launches := q'.launches, names := q'.names, paneIds := q'.paneIds,
                     generations := q'.generations, nextGeneration := q'.nextGeneration, nextSerial := q'.nextSerial)
  {
    hide Named;
    hide StartsAs;
    hide Completed;
    CreateOnlyTables(q.(paneIds := q.paneIds[pane.leaf := pane.paneId], names := Named(q.names, pane.leaf, pane.name)),
                     deps, pane.leaf, Completed(pane.launch, deps), primary, false, m);
    hide CreateHost;
  }

  /// One turn of the loop.
  lemma ProgressStep(p: Panes, deps: Deps, snap: LayoutSnapshot, factory: LeafId -> HostMaker, q: Panes,
                     done: set<LeafId>, id: LeafId, primary: bool)
    requires Restore(snap.tree).Some? && Progress(p, deps, snap, factory, q, done)
    requires id in ByLeaf(snap.panes) && id !in done
    ensures id in q.hosts ==> id in q.launches
    ensures var (q', ok) := ApplyLeaf(q, deps, ByLeaf(snap.panes)[id], primary, factory(id));
            && Frame(p, snap, q')
            && (ok ==> Progress(p, deps, snap, factory, q', done + {id}))
  {
    hide Restore;
    hide Kept;
    hide LeafApplied;
    hide LeafPending;
    hide Frame;
    hide ApplyLeaf;
    hide Counted;
    hide KeptLeaves;
    CounterGrown(p, snap, q, done);
    var wanted := ByLeaf(snap.panes);
    var pane := wanted[id];
    assert LeafPending(p, snap, q, id);
    ApplyPending(p, deps, snap, factory, q, pane, primary);
    ApplyFrame(p, deps, snap, q, pane, primary, factory(id));
    var (q', ok) := ApplyLeaf(q, deps, pane, primary, factory(id));
    if ok {
      KeptMeansLive(p, snap, id);
      ApplyCounted(p, deps, snap, q, pane, primary, factory(id), done);
      forall x | x in done ensures LeafApplied(p, deps, snap, factory, q', wanted[x]) {
        ApplyElsewhere(q, deps, pane, primary, factory(id), x);
        AppliedStays(p, deps, snap, factory, q, q', wanted[x]);
      }
      forall x | x !in done + {id} ensures LeafPending(p, snap, q', x) {
        ApplyElsewhere(q, deps, pane, primary, factory(id), x);
        PendingStays(p, snap, q, q', x);
      }
    }
  }

  /// Some pane that needs a new host cannot have one.
  ghost predicate SomeHostFails(p: Panes, deps: Deps, snap: LayoutSnapshot, factory: LeafId -> HostMaker) {
    var wanted := ByLeaf(snap.panes);
    exists id, primary :: id in wanted && !Kept(p, snap, id)
                          && StartsAs(deps, Completed(wanted[id].launch, deps), primary, false, factory(id)).None?
  }

  /// A turn fails only because its pane needs a host and cannot have one.
  lemma TurnFails(p: Panes, deps: Deps, snap: LayoutSnapshot, factory: LeafId -> HostMaker, q: Panes,
                  done: set<LeafId>, id: LeafId, primary: bool)
    requires Restore(snap.tree).Some? && Progress(p, deps, snap, factory, q, done)
    requires id in ByLeaf(snap.panes) && id !in done && (id in q.hosts ==> id in q.launches)
    requires !ApplyLeaf(q, deps, ByLeaf(snap.panes)[id], primary, factory(id)).1
    ensures SomeHostFails(p, deps, snap, factory)
  {
    hide Restore;
    hide StartsAs;
    hide Completed;
    hide Counted;
    hide Frame;
    hide LeafApplied;
    assert LeafPending(p, snap, q, id);
    hide Progress;
    assert StartsAs(deps, Completed(ByLeaf(snap.panes)[id].launch, deps), primary, false, factory(id)).None?;
  }

  lemma KeptMeansLive(p: Panes, snap: LayoutSnapshot, id: LeafId)
    ensures id in KeptLeaves(p, snap) <==> Kept(p, snap, id)
  {}

  /// When every leaf has had its turn and the preview is found, the layout is applied.
  lemma ProgressDone(p: Panes, deps: Deps, snap: LayoutSnapshot, factory: LeafId -> HostMaker, q: Panes, q': Panes)
    requires Accepts(snap) && Progress(p, deps, snap, factory, q, ByLeaf(snap.panes).Keys)
    requires q' == q.(previewLeaf := q'.previewLeaf, previewOwner := q'.previewOwner)
    requires if q'.previewLeaf == INVALID_LEAF then q'.previewOwner == INVALID_LEAF && forall l, o ::
               !IsPreviewOf(q', snap, l, o)
             else IsPreviewOf(q', snap, q'.previewLeaf, q'.previewOwner)
    ensures Applied(p, deps, snap, factory, q')
  {
    hide Accepts;
    hide LeafApplied;
    hide Restore;
    hide IsPreviewOf;
    AcceptedRestores(snap);
    NoRepeatedLeaves(snap);
    ProgressRecords(p, deps, snap, factory, q, q');
    hide LeafOutside;
    hide Injective;
    hide KeptLeaves;
  }

  lemma CounterGrown(p: Panes, snap: LayoutSnapshot, q: Panes, done: set<LeafId>)
    requires Counted(p, snap, q, done)
    ensures p.nextGeneration <= q.nextGeneration
  {}

  lemma ProgressRecords(p: Panes, deps: Deps, snap: LayoutSnapshot, factory: LeafId -> HostMaker, q: Panes, q': Panes)
    requires Restore(snap.tree).Some? && Progress(p, deps, snap, factory, q, ByLeaf(snap.panes).Keys)
    requires forall pane :: pane in snap.panes ==>
               pane.leaf in ByLeaf(snap.panes) && ByLeaf(snap.panes)[pane.leaf] == pane
    requires q' == q.(previewLeaf := q'.previewLeaf, previewOwner := q'.previewOwner)
    ensures forall pane :: pane in snap.panes ==> LeafApplied(p, deps, snap, factory, q', pane)
    ensures forall id :: id !in ByLeaf(snap.panes) ==> LeafOutside(p, q', id)
    ensures Frame(p, snap, q) && Counted(p, snap, q, ByLeaf(snap.panes).Keys)
  {
    hide Restore;
    hide Counted;
    hide Frame;
    hide LeafApplied;
    var wanted := ByLeaf(snap.panes);
    forall pane | pane in snap.panes ensures LeafApplied(p, deps, snap, factory, q', pane) {
      AppliedStays(p, deps, snap, factory, q, q', wanted[pane.leaf]);
    }
    forall id | id !in wanted ensures LeafOutside(p, q', id) {
      assert LeafPending(p, snap, q, id);
    }
  }

  lemma AcceptedRestores(snap: LayoutSnapshot)
    requires Accepts(snap)
    ensures Restore(snap.tree).Some?
  {}

  lemma NoRepeatedLeaves(snap: LayoutSnapshot)
    requires Accepts(snap)
    ensures forall pane :: pane in snap.panes ==>
              pane.leaf in ByLeaf(snap.panes) && ByLeaf(snap.panes)[pane.leaf] == pane
  {
    ByLeafDistinct(snap.panes);
    forall pane | pane in snap.panes ensures ByLeaf(snap.panes)[pane.leaf] == pane {
      var i :| 0 <= i < |snap.panes| && snap.panes[i] == pane;
    }
  }

  // ---------------------------------------------------------------------------
  // Before the loop over the panes

  /// The stripped state with the sources of kept Markdown hosts followed.
  function Followers(p: Panes, snap: LayoutSnapshot): Panes
    requires Restore(snap.tree).Some?
  {
    Stripped(p, snap).(launches := SourcedLaunches(p, snap))
  }

  function SourcedLaunches(p: Panes, snap: LayoutSnapshot): map<LeafId, Launch> {
    map id | id in p.launches && id !in p.hosts.Keys - KeptLeaves(p, snap) ::
      if Kept(p, snap, id) then Sourced(p.launches[id], ByLeaf(snap.panes)[id].launch) else p.launches[id]
  }

  lemma ProgressStart(p: Panes, deps: Deps, snap: LayoutSnapshot, factory: LeafId -> HostMaker)
    requires Backed(p) && Accepts(snap)
    ensures Restore(snap.tree).Some? && Progress(p, deps, snap, factory, Followers(p, snap), {})
  {
    AcceptedRestores(snap);
    hide Accepts;
    hide Restore;
    hide LeafPending;
    hide LeafApplied;
    var q := Followers(p, snap);
    FollowersCounted(p, snap);
    FollowersFrame(p, snap);
    hide Counted;
    hide Followers;
    hide Frame;
    forall id ensures LeafPending(p, snap, q, id) {
      FollowersPending(p, snap, id);
    }
    hide Backed;
  }

  lemma FollowersFrame(p: Panes, snap: LayoutSnapshot)
    requires Restore(snap.tree).Some?
    ensures Frame(p, snap, Followers(p, snap))
  {
    hide Restore;
    hide KeptLeaves;
    hide SourcedLaunches;
  }

  lemma FollowersPending(p: Panes, snap: LayoutSnapshot, id: LeafId)
    requires Backed(p) && Restore(snap.tree).Some?
    ensures LeafPending(p, snap, Followers(p, snap), id)
  {
    hide Restore;
    hide Injective;
    hide ByLeaf;
    assert p.hosts.Keys <= p.launches.Keys == p.generations.Keys;
    hide Backed;
    KeptMeansLive(p, snap, id);
    if Kept(p, snap, id) {
      assert id in p.launches.Keys && id in p.generations.Keys;
      KeptFollows(p, snap, id);
    } else {
      hide Kept;
      OtherStripped(p, snap, id);
    }
    hide Followers;
    hide LeafOutside;
    hide KeptLeaves;
    hide Kept;
  }

  lemma KeptFollows(p: Panes, snap: LayoutSnapshot, id: LeafId)
    requires Restore(snap.tree).Some? && id in KeptLeaves(p, snap) && Kept(p, snap, id)
    ensures var q := Followers(p, snap);
            && Lookup(q.hosts, id) == Some(p.hosts[id]) && Lookup(q.generations, id) == Lookup(p.generations, id)
            && Lookup(q.launches, id) == Some(Sourced(p.launches[id], ByLeaf(snap.panes)[id].launch))
            && Lookup(q.paneIds, id) == Lookup(p.paneIds, id)
  {
    hide Restore;
    hide KeptLeaves;
    hide SameHost;
    hide Sourced;
    hide ByLeaf;
  }

  lemma OtherStripped(p: Panes, snap: LayoutSnapshot, id: LeafId)
    requires Restore(snap.tree).Some? && id !in KeptLeaves(p, snap) && (id in p.hosts ==> id in p.launches)
             && !Kept(p, snap, id)
    ensures LeafOutside(p, Followers(p, snap), id)
  {
    hide Restore;
    hide KeptLeaves;
    hide Kept;
    hide Sourced;
    hide ByLeaf;
  }

  lemma FollowersCounted(p: Panes, snap: LayoutSnapshot)
    requires Backed(p) && Restore(snap.tree).Some?
    ensures Counted(p, snap, Followers(p, snap), {})
  {
    hide Restore;
    hide KeptLeaves;
    hide SourcedLaunches;
    hide Injective;
    var q := Followers(p, snap);
    assert {} - KeptLeaves(p, snap) == {};
    assert q.generations == p.generations - (p.hosts.Keys - KeptLeaves(p, snap))
      && q.nextGeneration == p.nextGeneration;
    SubmapInjective(p.generations, q.generations);
    hide Followers;
  }

  lemma SubmapInjective<V>(m: map<LeafId, V>, n: map<LeafId, V>)
    requires Injective(m) && forall id :: id in n ==> id in m && n[id] == m[id]
    ensures Injective(n)
  {}

  /// What a restore starts from is the same wherever the loop stopped.
  lemma ShutdownOfFrame(p: Panes, snap: LayoutSnapshot, q: Panes)
    requires Restore(snap.tree).Some? && Frame(p, snap, q)
    ensures Shutdown(q) == Shutdown(Stripped(p, snap))
  {
    hide Restore;
    hide KeptLeaves;
  }

  lemma RestoreFromFrame(p: Panes, deps: Deps, snap: LayoutSnapshot, q: Panes, saved: LayoutSnapshot,
                         factory: LeafId -> HostMaker)
    requires Restore(snap.tree).Some? && Frame(p, snap, q)
    ensures RestoreLayout(q, deps, saved, factory) == RestoreLayout(Stripped(p, snap), deps, saved, factory)
  {
    ShutdownOfFrame(p, snap, q);
    hide Restore;
    hide RestorePanes;
    hide Shutdown;
  }
}
