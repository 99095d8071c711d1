/** Applying an authoritative layout to live panes. */
module PaneReconcile {
  import opened Identifiers
  import opened SplitTrees
  import opened PaneNames
  import opened PaneModel
  import opened PaneInvariants
  import opened PaneRoundTrip

  function IdsOf(panes: seq<PaneSnapshot>): seq<string> {
    seq(|panes|, i requires 0 <= i < |panes| => panes[i].paneId)
  }

  /// The projected panes by leaf.
  function ByLeaf(panes: seq<PaneSnapshot>): (m: map<LeafId, PaneSnapshot>)
    ensures forall id :: id in m ==> m[id] in panes && m[id].leaf == id
    ensures forall pane :: pane in panes ==> pane.leaf in m
  {
    if panes == [] then map[] else ByLeaf(panes[..|panes| - 1])[panes[|panes| - 1].leaf := panes[|panes| - 1]]
  }

  /// The check a projected layout passes before any host is touched.
  ghost predicate Accepts(snap: LayoutSnapshot) {
    && snap.tree.root.Some? && |snap.panes| > 0
    && Restore(snap.tree).Some?
    && (forall i :: 0 <= i < |snap.panes| ==> snap.panes[i].leaf != INVALID_LEAF && snap.panes[i].paneId != "")
    && Distinct(LeavesOf(snap.panes)) && Distinct(IdsOf(snap.panes))
    && (forall id :: id in TreeLeaves(snap.tree) ==> id in ByLeaf(snap.panes))
    && |TreeLeaves(snap.tree)| == |snap.panes|
  }

  /// The launch still describes the same host; only Markdown follows a new source.
  predicate SameHost(live: Launch, wanted: Launch) {
    && live.kind == wanted.kind
    && live.remoteTerminalId == wanted.remoteTerminalId
    && live.clientHostKind == wanted.clientHostKind
    && live.clientPluginId == wanted.clientPluginId
    && live.clientPluginConfig == wanted.clientPluginConfig
    && (live.sourcePath == wanted.sourcePath || live.kind == Markdown)
  }

  predicate Kept(p: Panes, snap: LayoutSnapshot, id: LeafId) {
    var wanted := ByLeaf(snap.panes);
    id in p.hosts && id in wanted && id in p.launches && SameHost(p.launches[id], wanted[id].launch)
  }

  function KeptLeaves(p: Panes, snap: LayoutSnapshot): set<LeafId> {
    set id | id in p.hosts && Kept(p, snap, id)
  }

  /// Launch options of a kept host: the new source and the new companion owner.
  function Followed(live: Launch, wanted: Launch): Launch {
    live.(sourcePath := wanted.sourcePath, companionOwner := wanted.companionOwner)
  }

  /// The state after hosts that must go are gone and before new ones are made.
  function Stripped(p: Panes, snap: LayoutSnapshot): Panes
    requires Restore(snap.tree).Some?
  {
    Forget(p, p.hosts.Keys - KeptLeaves(p, snap)).(
      tree := Restore(snap.tree).value, zoomed := false, zoomedLeaf := INVALID_LEAF,
      previewLeaf := INVALID_LEAF, previewOwner := INVALID_LEAF)
  }

  /// A Markdown pane whose companion owner is one of the panes.
  predicate IsPreviewOf(q: Panes, snap: LayoutSnapshot, leaf: LeafId, owner: LeafId) {
    var wanted := ByLeaf(snap.panes);
    && leaf in wanted && wanted[leaf].launch.kind == Markdown && wanted[leaf].launch.companionOwner != ""
    && owner in q.paneIds && q.paneIds[owner] == wanted[leaf].launch.companionOwner
  }

  /// What one leaf records once the layout is applied.
  ghost predicate LeafApplied(p: Panes, deps: Deps, snap: LayoutSnapshot, factory: LeafId -> HostMaker, q: Panes,
                              pane: PaneSnapshot) {
    var id := pane.leaf;
    && id in q.hosts && id in q.launches && id in q.generations
    && Lookup(q.paneIds, id) == Some(pane.paneId)
    && Lookup(q.names, id) == (if pane.name == "" then None else Some(pane.name))
    && (if Kept(p, snap, id) then
          && q.hosts[id] == p.hosts[id] && Lookup(p.generations, id) == Some(q.generations[id])
          && q.launches[id] == Followed(p.launches[id], pane.launch)
        else
          && Some(q.hosts[id]) == StartsAs(deps, Completed(pane.launch, deps), false, false, factory(id))
          && q.launches[id] == Completed(pane.launch, deps)
          && p.nextGeneration <= q.generations[id] < q.nextGeneration)
  }

  /// A leaf the layout does not name: a host there is gone with all its records,
  /// and records without a host stay.
  ghost predicate LeafOutside(p: Panes, q: Panes, id: LeafId) {
    if id in p.hosts then Absent(q, id) else SameLeaf(p, q, id)
  }

  /// Nothing is recorded for the leaf.
  ghost predicate Absent(q: Panes, id: LeafId) {
    && id !in q.hosts && id !in q.launches && id !in q.names && id !in q.paneIds
    && id !in q.agents && id !in q.policies && id !in q.sessions && id !in q.generations
  }

  /// The outcome of a successful reconcile. The order in which new hosts are made
  /// is not fixed, so neither is the assignment of their generations.
  ghost predicate Applied(p: Panes, deps: Deps, snap: LayoutSnapshot, factory: LeafId -> HostMaker, q: Panes)
    requires Restore(snap.tree).Some?
  {
    var wanted := ByLeaf(snap.panes);
    && q.tree == Restore(snap.tree).value && !q.zoomed && q.zoomedLeaf == INVALID_LEAF
    && (forall pane :: pane in snap.panes ==> LeafApplied(p, deps, snap, factory, q, pane))
    && (forall id :: id !in wanted ==> LeafOutside(p, q, id))
    && Injective(q.generations) && (forall id :: id in q.generations ==> q.generations[id] < q.nextGeneration)
    && q.nextGeneration == p.nextGeneration + |wanted.Keys - KeptLeaves(p, snap)|
    && q.agents == p.agents - (p.hosts.Keys - KeptLeaves(p, snap))
    && q.policies == p.policies - (p.hosts.Keys - KeptLeaves(p, snap))
    && q.sessions == p.sessions - (p.hosts.Keys - KeptLeaves(p, snap))
    && (if q.previewLeaf == INVALID_LEAF then q.previewOwner == INVALID_LEAF && forall l, o ::
        !IsPreviewOf(q, snap, l, o)
        else IsPreviewOf(q, snap, q.previewLeaf, q.previewOwner))
  }

  // ---------------------------------------------------------------------------
  // What acceptance means

  lemma ByLeafDistinct(panes: seq<PaneSnapshot>)
    requires Distinct(LeavesOf(panes))
    ensures forall i :: 0 <= i < |panes| ==> ByLeaf(panes)[panes[i].leaf] == panes[i]
    ensures ByLeaf(panes).Keys == Elements(LeavesOf(panes)) && |ByLeaf(panes).Keys| == |panes|
  {
    forall i | 0 <= i < |panes| ensures ByLeaf(panes)[panes[i].leaf] == panes[i] {
      OnePanePerLeaf(panes, i);
    }
    ByLeafKeys(panes);
    DistinctCount(LeavesOf(panes));
    hide ByLeaf;
  }

  lemma OnePanePerLeaf(panes: seq<PaneSnapshot>, i: nat)
    requires Distinct(LeavesOf(panes)) && i < |panes|
    ensures panes[i].leaf in ByLeaf(panes) && ByLeaf(panes)[panes[i].leaf] == panes[i]
  {
    assert panes[i] in panes;
    var pane := ByLeaf(panes)[panes[i].leaf];
    assert pane in panes && pane.leaf == panes[i].leaf;
    SamePane(panes, i, pane);
  }

  lemma SamePane(panes: seq<PaneSnapshot>, i: nat, pane: PaneSnapshot)
    requires Distinct(LeavesOf(panes)) && i < |panes| && pane in panes && pane.leaf == panes[i].leaf
    ensures pane == panes[i]
  {
    var j :| 0 <= j < |panes| && panes[j] == pane;
    assert LeavesOf(panes)[i] == LeavesOf(panes)[j];
  }

  lemma ByLeafKeys(panes: seq<PaneSnapshot>)
    ensures ByLeaf(panes).Keys == Elements(LeavesOf(panes))
  {
    var ids := LeavesOf(panes);
    forall id ensures id in ByLeaf(panes) <==> id in Elements(ids) {
      if id in ids {
        assert panes[IndexOf(ids, id)] in panes;
      }
      if id in ByLeaf(panes) {
        var j :| 0 <= j < |panes| && panes[j] == ByLeaf(panes)[id];
        assert ids[j] == id;
      }
    }
  }

  /// An accepted layout's panes are its tree's leaves exactly when no leaf
  /// occurs twice in the tree; the check itself compares only counts.
  lemma AcceptedPanesMatchTree(snap: LayoutSnapshot)
    requires Accepts(snap)
    ensures ByLeaf(snap.panes).Keys == LeafSet(snap.tree) <==> Distinct(TreeLeaves(snap.tree))
    ensures LeafSet(snap.tree) <= ByLeaf(snap.panes).Keys
  {
    ByLeafDistinct(snap.panes);
    var ids := TreeLeaves(snap.tree);
    var keys := ByLeaf(snap.panes).Keys;
    InElements(ids);
    assert Elements(ids) <= keys;
    if Distinct(ids) {
      DistinctCount(ids);
      SubsetOfSameSize(Elements(ids), keys);
    }
    if Elements(ids) == keys {
      CountDistinct(ids);
    }
  }

  lemma SubsetOfSameSize<T>(a: set<T>, b: set<T>)
    requires a <= b && |a| == |b|
    ensures a == b
  {
    assert b == a + (b - a);
    assert |b| == |a| + |b - a|;
  }

  lemma {:induction false} CountDistinct<T>(s: seq<T>)
    requires |Elements(s)| == |s|
    ensures Distinct(s)
  {
    if s != [] {
      var front, last := s[..|s| - 1], s[|s| - 1];
      assert s == front + [last];
      ElementsOfAppend(front, [last]);
      assert Elements(s) == Elements(front) + {last};
      ElementsBounded(front);
      assert last !in front;
      CountDistinct(front);
      assert forall i :: 0 <= i < |front| ==> s[i] == front[i];
    }
  }

  lemma {:induction false} ElementsBounded<T>(s: seq<T>)
    ensures |Elements(s)| <= |s|
  {
    if s != [] {
      var front, last := s[..|s| - 1], s[|s| - 1];
      ElementsBounded(front);
      assert s == front + [last];
      ElementsOfAppend(front, [last]);
      assert Elements(s) == Elements(front) + {last};
    }
  }

  /// A tree that shows one leaf twice passes the check with a pane outside it. No
  /// decoded snapshot has such a tree; only another caller could supply it.
  lemma AcceptsStrandedPane(launch: Launch) returns (snap: LayoutSnapshot)
    ensures Accepts(snap) && 2 in ByLeaf(snap.panes) && 2 !in LeafSet(snap.tree)
  {
    var one := PaneSnapshot(1, launch, "", "a", None, None, ResumeIfAvailable);
    var two := PaneSnapshot(2, launch, "", "b", None, None, ResumeIfAvailable);
    var node := Split(Vertical, 0.5, Leaf(1), Leaf(1));
    snap := LayoutSnapshot(SplitTree(Some(node), 3, 1), [one, two], false, INVALID_LEAF);
    assert TreeLeaves(snap.tree) == [1, 1];
    assert LeavesOf(snap.panes) == [1, 2] && IdsOf(snap.panes) == ["a", "b"];
    assert one in snap.panes && two in snap.panes;
    assert "a"[0] != "b"[0];
  }

  // ---------------------------------------------------------------------------
  // What a reconcile keeps and changes

  /// Every accepted layout without a repeated leaf, once applied, is exactly what
  /// the panes show, and no zoom is left. What was recorded for leaves without a
  /// host stays as it was unless the layout names the leaf; so the tables agree
  /// with the tree exactly when it names all of those.
  lemma AppliedIsConsistent(p: Panes, deps: Deps, snap: LayoutSnapshot, factory: LeafId -> HostMaker, q: Panes)
    requires Backed(p) && Accepts(snap) && Distinct(TreeLeaves(snap.tree)) && Applied(p, deps, snap, factory, q)
    ensures Housed(q) && ZoomShown(q) && NamedIds(q) && Strays(q) == Strays(p) - LeafSet(snap.tree)
    ensures Consistent(q) <==> Strays(p) <= LeafSet(snap.tree)
    ensures LeafSet(q.tree) == LeafSet(snap.tree) == q.hosts.Keys
    ensures forall i :: 0 <= i < |snap.panes| ==> LeafApplied(p, deps, snap, factory, q, snap.panes[i])
  {
    hide Applied;
    hide LeafApplied;
    hide StartsAs;
    AcceptedPanesMatchTree(snap);
    RestoreLaw(snap.tree);
    AcceptedIdsDiffer(snap);
    AcceptedIds(snap);
    hide Accepts;
    hide Restore;
    hide WellFormed;
    hide Backed;
    hide Injective;
    hide PreviewOn;
    hide ZoomShown;
    hide Strays;
    hide Consistent;
    AppliedShape(p, deps, snap, factory, q);
    AppliedTables(p, deps, snap, factory, q);
    StraysOutside(p, q, ByLeaf(snap.panes).Keys);
    AppliedPreview(p, deps, snap, factory, q);
    IdsFollow(q.paneIds, ByLeaf(snap.panes));
    IdsNamed(q, ByLeaf(snap.panes));
    hide NamedIds;
    hide LeafOutside;
    ConsistentExactly(q);
    NothingLeft(Strays(p), LeafSet(snap.tree));
  }

  lemma AppliedShape(p: Panes, deps: Deps, snap: LayoutSnapshot, factory: LeafId -> HostMaker, q: Panes)
    requires Restore(snap.tree).Some? && Applied(p, deps, snap, factory, q)
    ensures q.tree == Restore(snap.tree).value && ZoomShown(q) && p.nextGeneration <= q.nextGeneration
    ensures forall id :: id in ByLeaf(snap.panes) ==> LeafApplied(p, deps, snap, factory, q, ByLeaf(snap.panes)[id])
    ensures forall id :: id !in ByLeaf(snap.panes) ==> LeafOutside(p, q, id)
    ensures forall i :: 0 <= i < |snap.panes| ==> LeafApplied(p, deps, snap, factory, q, snap.panes[i])
  {
    hide Restore;
    hide LeafApplied;
    hide LeafOutside;
  }

  /// One leaf's place in the tables of an applied layout.
  lemma AppliedAt(p: Panes, deps: Deps, snap: LayoutSnapshot, factory: LeafId -> HostMaker, q: Panes, id: LeafId)
    requires Backed(p) && Restore(snap.tree).Some? && Applied(p, deps, snap, factory, q)
    ensures var wanted := ByLeaf(snap.panes);
            && (id in q.hosts <==> id in wanted) && (id in q.paneIds <==> id in wanted)
            && (id in wanted ==>
                id in q.launches && id in q.generations && id in q.paneIds && q.paneIds[id] == wanted[id].paneId)
            && (id !in wanted ==> (id in q.launches <==> id in q.generations))
  {
    hide Restore;
    hide LeafApplied;
    hide LeafOutside;
    hide Injective;
    var wanted := ByLeaf(snap.panes);
    if id in wanted {
      AppliedTo(p, deps, snap, factory, q, wanted[id]);
    } else {
      assert LeafOutside(p, q, id);
      assert id in p.hosts.Keys <==> id in p.paneIds.Keys;
      assert id in p.launches.Keys <==> id in p.generations.Keys;
      hide Applied;
      hide Backed;
      OutsideTables(p, q, id);
    }
  }

  lemma AppliedTo(p: Panes, deps: Deps, snap: LayoutSnapshot, factory: LeafId -> HostMaker, q: Panes,
                  pane: PaneSnapshot)
    requires Restore(snap.tree).Some? && Applied(p, deps, snap, factory, q) && pane in snap.panes
    ensures pane.leaf in q.hosts && pane.leaf in q.launches && pane.leaf in q.generations
    ensures pane.leaf in q.paneIds && q.paneIds[pane.leaf] == pane.paneId
  {
    assert LeafApplied(p, deps, snap, factory, q, pane);
    hide Applied;
    hide Restore;
    hide StartsAs;
    hide Completed;
    hide Kept;
  }

  lemma OutsideTables(p: Panes, q: Panes, id: LeafId)
    requires LeafOutside(p, q, id) && (id in p.hosts <==> id in p.paneIds)
             && (id in p.launches <==> id in p.generations)
    ensures id !in q.hosts && id !in q.paneIds && (id in q.launches <==> id in q.generations)
  {}

  lemma AppliedTables(p: Panes, deps: Deps, snap: LayoutSnapshot, factory: LeafId -> HostMaker, q: Panes)
    requires Backed(p) && Restore(snap.tree).Some? && Applied(p, deps, snap, factory, q)
    ensures Backed(q) && q.hosts.Keys == ByLeaf(snap.panes).Keys
    ensures forall id :: id in q.paneIds ==> id in ByLeaf(snap.panes) && q.paneIds[id] == ByLeaf(snap.panes)[id].paneId
  {
    hide Restore;
    hide LeafApplied;
    hide LeafOutside;
    hide ByLeaf;
    assert Injective(q.generations) && forall id :: id in q.generations ==> q.generations[id] < q.nextGeneration;
    var wanted := ByLeaf(snap.panes);
    forall id
      ensures (id in q.hosts <==> id in wanted) && (id in q.paneIds <==> id in wanted)
      ensures (id in q.hosts ==> id in q.launches) && (id in q.launches <==> id in q.generations)
      ensures id in q.paneIds ==> id in wanted && q.paneIds[id] == wanted[id].paneId
    {
      AppliedAt(p, deps, snap, factory, q, id);
    }
    hide Injective;
    hide Applied;
    SameKeys(q.hosts, wanted);
    SameKeys(q.paneIds, wanted);
    SameKeys(q.launches, q.generations);
    assert q.hosts.Keys <= q.launches.Keys;
  }

  lemma SameKeys<A, B>(m: map<LeafId, A>, n: map<LeafId, B>)
    requires forall id :: id in m <==> id in n
    ensures m.Keys == n.Keys
  {
    forall id ensures id in m.Keys <==> id in n.Keys {
      assert id in m <==> id in n;
    }
  }

  /// A leaf no host is made for keeps its stray records, and gets no others.
  lemma StrayOutside(p: Panes, q: Panes, id: LeafId)
    requires LeafOutside(p, q, id)
    ensures id in Strays(q) <==> id in Strays(p)
  {
    if id !in p.hosts {
      assert Lookup(q.hosts, id) == Lookup(p.hosts, id) && Lookup(q.launches, id) == Lookup(p.launches, id);
    }
  }

  lemma StraysOutside(p: Panes, q: Panes, wanted: set<LeafId>)
    requires q.hosts.Keys == wanted && forall id :: id !in wanted ==> LeafOutside(p, q, id)
    ensures Strays(q) == Strays(p) - wanted
  {
    forall id ensures id in Strays(q) <==> id in Strays(p) && id !in wanted {
      if id in wanted {
        HostedIsNoStray(q, id);
      } else {
        StrayOutside(p, q, id);
      }
    }
    hide Strays;
    hide LeafOutside;
  }

  lemma HostedIsNoStray(q: Panes, id: LeafId)
    requires id in q.hosts
    ensures id !in Strays(q)
  {}

  lemma AppliedPreview(p: Panes, deps: Deps, snap: LayoutSnapshot, factory: LeafId -> HostMaker, q: Panes)
    requires Restore(snap.tree).Some? && Applied(p, deps, snap, factory, q) && q.paneIds.Keys <= ByLeaf(snap.panes).Keys
    ensures PreviewOn(q, ByLeaf(snap.panes).Keys)
  {
    hide LeafApplied;
    hide Restore;
    hide KeptLeaves;
    if q.previewLeaf != INVALID_LEAF {
      assert IsPreviewOf(q, snap, q.previewLeaf, q.previewOwner);
    }
  }

  lemma AcceptedIds(snap: LayoutSnapshot)
    requires Accepts(snap)
    ensures Restore(snap.tree).Some? && forall id :: id in ByLeaf(snap.panes) ==> ByLeaf(snap.panes)[id].paneId != ""
  {}

  lemma IdsNamed(q: Panes, wanted: map<LeafId, PaneSnapshot>)
    requires forall id :: id in q.paneIds ==> id in wanted && q.paneIds[id] == wanted[id].paneId
    requires forall id :: id in wanted ==> wanted[id].paneId != ""
    ensures NamedIds(q)
  {}

  lemma IdsFollow(m: map<LeafId, string>, wanted: map<LeafId, PaneSnapshot>)
    requires forall id :: id in m ==> id in wanted && m[id] == wanted[id].paneId
    requires forall a, b :: a in wanted && b in wanted && a != b ==> wanted[a].paneId != wanted[b].paneId
    ensures Injective(m)
  {}

  lemma AcceptedIdsDiffer(snap: LayoutSnapshot)
    requires Accepts(snap)
    ensures forall a, b :: a in ByLeaf(snap.panes) && b in ByLeaf(snap.panes) && a != b ==>
              ByLeaf(snap.panes)[a].paneId != ByLeaf(snap.panes)[b].paneId
  {
    var panes := snap.panes;
    assert Distinct(IdsOf(panes));
    hide Accepts;
    hide Distinct;
    var wanted := ByLeaf(panes);
    forall a, b | a in wanted && b in wanted && a != b ensures wanted[a].paneId != wanted[b].paneId {
      TwoPanes(panes, wanted[a], wanted[b]);
    }
  }

  lemma TwoPanes(panes: seq<PaneSnapshot>, a: PaneSnapshot, b: PaneSnapshot)
    requires Distinct(IdsOf(panes)) && a in panes && b in panes && a != b
    ensures a.paneId != b.paneId
  {
    var i :| 0 <= i < |panes| && panes[i] == a;
    var j :| 0 <= j < |panes| && panes[j] == b;
    assert IdsOf(panes)[i] == a.paneId && IdsOf(panes)[j] == b.paneId;
  }

  /// A leaf keeps its runtime generation exactly when the snapshot names the same kind
  /// of host, terminal, client host and plugin with the same configuration, and the same
  /// source unless it is Markdown; and its host object likewise when the factory makes
  /// new objects.
  lemma KeptExactlyWhenSameHost(p: Panes, deps: Deps, snap: LayoutSnapshot, factory: LeafId -> HostMaker, q: Panes,
                                pane: PaneSnapshot)
    requires Backed(p) && Accepts(snap) && Applied(p, deps, snap, factory, q)
    requires pane in snap.panes && pane.leaf in p.hosts
    ensures pane.leaf in q.generations && pane.leaf in q.hosts && pane.leaf in p.generations && pane.leaf in p.launches
    ensures var live, wanted := p.launches[pane.leaf], pane.launch;
            var same := && live.kind == wanted.kind && live.remoteTerminalId == wanted.remoteTerminalId
                        && live.clientHostKind == wanted.clientHostKind
                        && live.clientPluginId == wanted.clientPluginId
                        && live.clientPluginConfig == wanted.clientPluginConfig
                        && (live.sourcePath == wanted.sourcePath || live.kind == Markdown);
            && (q.generations[pane.leaf] == p.generations[pane.leaf] <==> same)
            && (factory(pane.leaf).provider != Some(p.hosts[pane.leaf])
                && factory(pane.leaf).placeholder != p.hosts[pane.leaf] ==>
                  (q.hosts[pane.leaf] == p.hosts[pane.leaf] <==> same))
  {
    assert LeafApplied(p, deps, snap, factory, q, pane);
    assert pane.leaf in p.launches;
    assert p.generations[pane.leaf] < p.nextGeneration;
    ByLeafOf(snap, pane);
    hide Applied;
    hide Accepts;
    hide Backed;
    StartsAsOneOf(deps, Completed(pane.launch, deps), factory(pane.leaf));
    hide StartsAs;
  }

  lemma ByLeafOf(snap: LayoutSnapshot, pane: PaneSnapshot)
    requires Accepts(snap) && pane in snap.panes
    ensures pane.leaf in ByLeaf(snap.panes) && ByLeaf(snap.panes)[pane.leaf] == pane
  {
    ByLeafDistinct(snap.panes);
    var i :| 0 <= i < |snap.panes| && snap.panes[i] == pane;
    hide Accepts;
  }

  /// Whether its host was kept or made anew, each pane records the host that the
  /// snapshot asks for: no host of another kind, terminal, client host, plugin, source
  /// or companion is left behind.
  lemma AppliedRecordsSnapshot(p: Panes, deps: Deps, snap: LayoutSnapshot, factory: LeafId -> HostMaker, q: Panes,
                               pane: PaneSnapshot)
    requires Accepts(snap) && Applied(p, deps, snap, factory, q) && pane in snap.panes
    ensures pane.leaf in q.hosts && pane.leaf in q.launches
    ensures var live, wanted := q.launches[pane.leaf], pane.launch;
            && live.kind == wanted.kind && live.remoteTerminalId == wanted.remoteTerminalId
            && live.clientHostKind == wanted.clientHostKind && live.clientPluginId == wanted.clientPluginId
            && live.clientPluginConfig == wanted.clientPluginConfig && live.sourcePath == wanted.sourcePath
            && live.companionOwner == wanted.companionOwner
  {
    assert LeafApplied(p, deps, snap, factory, q, pane);
    ByLeafOf(snap, pane);
    hide Applied;
    hide Accepts;
    hide StartsAs;
    hide ByLeaf;
  }

  /// And each has the pane id and the name of the snapshot.
  lemma AppliedNamesPanes(p: Panes, deps: Deps, snap: LayoutSnapshot, factory: LeafId -> HostMaker, q: Panes,
                          pane: PaneSnapshot)
    requires Restore(snap.tree).Some? && Applied(p, deps, snap, factory, q) && pane in snap.panes
    ensures Lookup(q.paneIds, pane.leaf) == Some(pane.paneId) && Text(q.names, pane.leaf) == pane.name
  {
    hide Restore;
    hide Kept;
    hide StartsAs;
    assert LeafApplied(p, deps, snap, factory, q, pane);
    hide Applied;
  }

  /// What is known of the agent in a pane stays with its host and goes with it.
  lemma AgentsFollowHosts(p: Panes, deps: Deps, snap: LayoutSnapshot, factory: LeafId -> HostMaker, q: Panes,
                          id: LeafId)
    requires Backed(p) && Accepts(snap) && Applied(p, deps, snap, factory, q) && id in p.hosts
    ensures var stays := id in q.generations && q.generations[id] == p.generations[id];
            && Lookup(q.agents, id) == (if stays then Lookup(p.agents, id) else None)
            && Lookup(q.policies, id) == (if stays then Lookup(p.policies, id) else None)
            && Lookup(q.sessions, id) == (if stays then Lookup(p.sessions, id) else None)
  {
    AcceptedIds(snap);
    hide Accepts;
    hide Restore;
    AppliedRecordsOf(p, deps, snap, factory, q, id);
    if id in ByLeaf(snap.panes) {
      assert LeafApplied(p, deps, snap, factory, q, ByLeaf(snap.panes)[id]);
    } else {
      assert LeafOutside(p, q, id);
    }
    hide Applied;
    hide StartsAs;
    hide SameHost;
    hide Injective;
  }

  lemma AppliedRecordsOf(p: Panes, deps: Deps, snap: LayoutSnapshot, factory: LeafId -> HostMaker, q: Panes,
                         id: LeafId)
    requires Restore(snap.tree).Some? && Applied(p, deps, snap, factory, q) && id in p.hosts
    ensures Lookup(q.agents, id) == (if Kept(p, snap, id) then Lookup(p.agents, id) else None)
    ensures Lookup(q.policies, id) == (if Kept(p, snap, id) then Lookup(p.policies, id) else None)
    ensures Lookup(q.sessions, id) == (if Kept(p, snap, id) then Lookup(p.sessions, id) else None)
  {
    hide Restore;
    hide Kept;
    hide LeafApplied;
    hide LeafOutside;
    hide Injective;
    hide IsPreviewOf;
  }

  /// One pane is Markdown and names the other as the pane it goes with.
  ghost predicate PreviewPair(snap: LayoutSnapshot, a: PaneSnapshot, b: PaneSnapshot) {
    && a in snap.panes && b in snap.panes
    && a.launch.kind == Markdown && a.launch.companionOwner != "" && a.launch.companionOwner == b.paneId
  }

  /// After a projection a preview is shown exactly when some Markdown pane names a pane of
  /// the snapshot as its companion, and it is the preview of such a pair.
  lemma AppliedShowsPreview(p: Panes, deps: Deps, snap: LayoutSnapshot, factory: LeafId -> HostMaker, q: Panes)
    requires Backed(p) && Accepts(snap) && Applied(p, deps, snap, factory, q)
    ensures q.previewLeaf != INVALID_LEAF <==> exists a, b :: PreviewPair(snap, a, b)
    ensures q.previewLeaf != INVALID_LEAF ==>
              exists a, b :: PreviewPair(snap, a, b) && q.previewLeaf == a.leaf && q.previewOwner == b.leaf
  {
    hide Applied;
    hide Restore;
    hide ByLeaf;
    hide IsPreviewOf;
    hide PreviewPair;
    hide Injective;
    AppliedTables(p, deps, snap, factory, q);
    AppliedPreviews(p, deps, snap, factory, q);
    PreviewsArePairs(q, snap);
  }

  lemma PreviewsArePairs(q: Panes, snap: LayoutSnapshot)
    requires Accepts(snap) && q.paneIds.Keys == ByLeaf(snap.panes).Keys
    requires forall id :: id in q.paneIds ==> id in ByLeaf(snap.panes) && q.paneIds[id] == ByLeaf(snap.panes)[id].paneId
    requires if q.previewLeaf == INVALID_LEAF then forall l, o :: !IsPreviewOf(q, snap, l, o)
             else IsPreviewOf(q, snap, q.previewLeaf, q.previewOwner)
    ensures q.previewLeaf != INVALID_LEAF <==> exists a, b :: PreviewPair(snap, a, b)
    ensures q.previewLeaf != INVALID_LEAF ==>
              exists a, b :: PreviewPair(snap, a, b) && q.previewLeaf == a.leaf && q.previewOwner == b.leaf
  {
    hide Accepts;
    if q.previewLeaf != INVALID_LEAF {
      var wanted := ByLeaf(snap.panes);
      assert PreviewPair(snap, wanted[q.previewLeaf], wanted[q.previewOwner]);
    } else {
      forall a, b ensures !PreviewPair(snap, a, b) {
        if PreviewPair(snap, a, b) { PairIsPreview(q, snap, a, b); }
      }
    }
    hide ByLeaf;
  }

  lemma PairIsPreview(q: Panes, snap: LayoutSnapshot, a: PaneSnapshot, b: PaneSnapshot)
    requires Accepts(snap) && PreviewPair(snap, a, b) && q.paneIds.Keys == ByLeaf(snap.panes).Keys
    requires forall id :: id in q.paneIds ==> id in ByLeaf(snap.panes) && q.paneIds[id] == ByLeaf(snap.panes)[id].paneId
    ensures IsPreviewOf(q, snap, a.leaf, b.leaf)
  {
    ByLeafOf(snap, a);
    ByLeafOf(snap, b);
    hide Accepts;
    hide ByLeaf;
    assert b.leaf in q.paneIds.Keys;
  }

  lemma AppliedPreviews(p: Panes, deps: Deps, snap: LayoutSnapshot, factory: LeafId -> HostMaker, q: Panes)
    requires Accepts(snap) && Applied(p, deps, snap, factory, q)
    ensures if q.previewLeaf == INVALID_LEAF then forall l, o :: !IsPreviewOf(q, snap, l, o)
            else IsPreviewOf(q, snap, q.previewLeaf, q.previewOwner)
  {
    hide LeafApplied;
    hide LeafOutside;
    hide Restore;
    hide IsPreviewOf;
    hide KeptLeaves;
    hide Injective;
  }

  lemma StartsAsOneOf(deps: Deps, launch: Launch, m: HostMaker)
    ensures StartsAs(deps, launch, false, false, m).Some? ==>
              StartsAs(deps, launch, false, false, m) == m.provider
                || StartsAs(deps, launch, false, false, m).value == m.placeholder
  {}

  /// The layout saved at entry is put back after a host failed exactly when its
  /// own hosts all start again. Then tree, zoom and stable ids are those of entry,
  /// with the focus on a zoomed leaf; otherwise no host is left.
  lemma FailedReconcileRestores(p: Panes, deps: Deps, snap: LayoutSnapshot, cwd: LeafId -> string,
                                again: LeafId -> HostMaker)
    requires Housed(p) && ZoomLive(p) && NamedIds(p) && Accepts(snap)
    ensures SnapshotLayout(p, cwd).Some?
    ensures var saved := SnapshotLayout(p, cwd).value;
            var (q, ok) := RestoreLayout(Stripped(p, snap), deps, saved, again);
            && (ok <==> AllStart(deps, saved.panes, again))
            && (Consistent(q) <==> ok && p.policies.Keys + p.sessions.Keys <= LeafSet(p.tree))
            && (ok ==> Housed(q) && ZoomShown(q) && NamedIds(q)
                       && q.tree == p.tree.(focused := if p.zoomed then p.zoomedLeaf else p.tree.focused)
                       && q.zoomed == p.zoomed && q.zoomedLeaf == p.zoomedLeaf && q.paneIds == p.paneIds)
            && (!ok ==> q.tree == p.tree && q == Shutdown(q) && !q.zoomed && q.zoomedLeaf == INVALID_LEAF)
            && Strays(q) <= p.policies.Keys + p.sessions.Keys + LeafSet(p.tree)
  {
    assert Restore(snap.tree).Some?;
    hide Restore;
    hide Accepts;
    hide RestoreLayout;
    SnapshotIsWellSaved(p, cwd);
    var saved := SnapshotLayout(p, cwd).value;
    assert saved.tree == p.tree && saved.zoomed == p.zoomed && saved.zoomedLeaf == p.zoomedLeaf;
    hide SnapshotLayout;
    var base := Stripped(p, snap);
    hide KeptLeaves;
    StrippedKeeps(p, snap);
    hide Stripped;
    hide Housed;
    hide ZoomLive;
    hide ZoomShown;
    hide Strays;
    hide WellSaved;
    if AllStart(deps, saved.panes, again) {
      RestoreLayoutLaw(base, deps, saved, again);
      PutBack(p, base, deps, saved, again, cwd);
    } else {
      RestoreFails(base, deps, saved, again);
      NoHostNoLayout(p.tree, RestoreLayout(base, deps, saved, again).0);
    }
    hide *;
  }

  /// Dropping hosts that have to go keeps what a shutdown keeps.
  lemma StrippedKeeps(p: Panes, snap: LayoutSnapshot)
    requires Housed(p) && Restore(snap.tree).Some?
    ensures var base := Stripped(p, snap);
            && (base.policies.Keys + base.sessions.Keys) - LeafSet(p.tree) ==
              (p.policies.Keys + p.sessions.Keys) - LeafSet(p.tree)
            && base.policies.Keys + base.sessions.Keys <= p.policies.Keys + p.sessions.Keys
            && !base.zoomed && base.zoomedLeaf == INVALID_LEAF
  {
    hide Restore;
    hide KeptLeaves;
    hide WellFormed;
  }

  lemma NoHostNoLayout(t: SplitTree, q: Panes)
    requires WellFormed(t) && q.tree == t && q.hosts == map[]
    ensures !Consistent(q)
  {
    assert t.focused in LeafSet(t);
  }

  lemma PutBack(p: Panes, base: Panes, deps: Deps, saved: LayoutSnapshot, again: LeafId -> HostMaker,
                cwd: LeafId -> string)
    requires Housed(p) && SnapshotLayout(p, cwd) == Some(saved) && WellSaved(saved)
             && AllStart(deps, saved.panes, again)
    requires (base.policies.Keys + base.sessions.Keys) - LeafSet(p.tree) ==
               (p.policies.Keys + p.sessions.Keys) - LeafSet(p.tree)
    ensures var q := RestoreLayout(base, deps, saved, again).0;
            && NamedIds(q) && q.paneIds == p.paneIds
            && (Consistent(q) <==> p.policies.Keys + p.sessions.Keys <= LeafSet(p.tree))
            && Strays(q) == (p.policies.Keys + p.sessions.Keys) - LeafSet(p.tree)
  {
    hide RestoreLayout;
    hide WellFormed;
    hide StartsAs;
    hide RuntimeLaunch;
    hide Injective;
    hide PreviewOn;
    hide Strays;
    hide ZoomShown;
    hide Consistent;
    RestoreLayoutLaw(base, deps, saved, again);
    var q := RestoreLayout(base, deps, saved, again).0;
    RestoredNamed(q, base, deps, saved, again);
    forall i | 0 <= i < |saved.panes| ensures Lookup(q.paneIds, saved.panes[i].leaf) == Some(saved.panes[i].paneId) {
      assert PaneRestored(q, base, deps, saved.panes[i], HostOf(deps, saved.panes, i, again).value);
    }
    hide PaneRestored;
    SamePaneIds(p, q, cwd);
    ConsistentExactly(q);
    NothingLeft(p.policies.Keys + p.sessions.Keys, LeafSet(p.tree));
  }

  lemma SamePaneIds(p: Panes, q: Panes, cwd: LeafId -> string)
    requires p.paneIds.Keys == q.paneIds.Keys == LeafSet(p.tree) && SnapshotLayout(p, cwd).Some?
    requires forall i :: 0 <= i < |SnapshotLayout(p, cwd).value.panes| ==>
               Lookup(q.paneIds, SnapshotLayout(p, cwd).value.panes[i].leaf) ==
                 Some(SnapshotLayout(p, cwd).value.panes[i].paneId)
    ensures q.paneIds == p.paneIds
  {
    var saved := SnapshotLayout(p, cwd).value;
    forall id | id in p.paneIds ensures id in q.paneIds && q.paneIds[id] == p.paneIds[id] {
      var i := IndexOf(TreeLeaves(p.tree), id);
      assert saved.panes[i] == SavePane(p, id, cwd(id));
    }
  }
}
