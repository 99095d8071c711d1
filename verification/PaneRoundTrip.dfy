/** Saving a tab's panes, restoring them and saving them again. */
module PaneRoundTrip {
  import opened Identifiers
  import opened SplitTrees
  import opened PaneNames
  import opened PaneModel
  import opened PaneInvariants

  function LeavesOf(panes: seq<PaneSnapshot>): seq<LeafId> {
    seq(|panes|, i requires 0 <= i < |panes| => panes[i].leaf)
  }

  /// A saved pane has a stable id, and an agent only if it is managed.
  ghost predicate SavedWell(pane: PaneSnapshot) {
    pane.paneId != "" && (pane.agent.Some? ==> pane.agent.value.origin == Managed)
  }

  /// A layout as SnapshotLayout writes it: one pane per leaf, each with its stable id.
  ghost predicate WellSaved(saved: LayoutSnapshot) {
    && WellFormed(saved.tree)
    && LeavesOf(saved.panes) == TreeLeaves(saved.tree)
    && (forall i :: 0 <= i < |saved.panes| ==> SavedWell(saved.panes[i]))
    && (forall i, j :: 0 <= i < j < |saved.panes| ==> saved.panes[i].paneId != saved.panes[j].paneId)
    && (if saved.zoomed then saved.zoomedLeaf in TreeLeaves(saved.tree) && |saved.panes| >= 2
        else saved.zoomedLeaf == INVALID_LEAF)
  }

  /// The focus was not saved behind a zoom.
  predicate FocusVisible(saved: LayoutSnapshot) {
    saved.zoomed ==> saved.zoomedLeaf == saved.tree.focused
  }

  /// What a restore makes of a saved layout: the focus is on the zoomed leaf.
  function Settled(saved: LayoutSnapshot): LayoutSnapshot {
    if saved.zoomed then saved.(tree := saved.tree.(focused := saved.zoomedLeaf)) else saved
  }

  lemma SnapshotIsWellSaved(p: Panes, cwd: LeafId -> string)
    requires Housed(p) && ZoomLive(p) && NamedIds(p)
    ensures SnapshotLayout(p, cwd).Some? && WellSaved(SnapshotLayout(p, cwd).value)
    ensures FocusVisible(SnapshotLayout(p, cwd).value) <==> ZoomShown(p)
    ensures PoliciesManaged(p) ==>
              forall i :: 0 <= i < |SnapshotLayout(p, cwd).value.panes| ==>
                PolicyManaged(SnapshotLayout(p, cwd).value.panes[i])
  {
    SnapshotLeaves(p);
    SnapshotExists(p, cwd);
    var saved := SnapshotLayout(p, cwd).value;
    forall i | 0 <= i < |saved.panes|
      ensures SavedWell(saved.panes[i]) && saved.panes[i].leaf == TreeLeaves(p.tree)[i]
      ensures saved.panes[i].paneId == p.paneIds[TreeLeaves(p.tree)[i]]
      ensures PoliciesManaged(p) ==> PolicyManaged(saved.panes[i])
    {
      SavePaneWell(p, TreeLeaves(p.tree)[i], cwd(TreeLeaves(p.tree)[i]));
    }
    SnapshotAssembled(p, saved);
  }

  lemma SnapshotAssembled(p: Panes, saved: LayoutSnapshot)
    requires WellFormed(p.tree) && ZoomLive(p)
    requires saved.tree == p.tree && saved.zoomed == p.zoomed && saved.zoomedLeaf == p.zoomedLeaf
    requires |saved.panes| == |TreeLeaves(p.tree)|
    requires forall i :: 0 <= i < |saved.panes| ==>
               SavedWell(saved.panes[i]) && saved.panes[i].leaf == TreeLeaves(p.tree)[i]
    requires forall i, j :: 0 <= i < j < |saved.panes| ==> saved.panes[i].paneId != saved.panes[j].paneId
    ensures WellSaved(saved)
  {
    hide WellFormed;
    InElements(TreeLeaves(p.tree));
    assert LeavesOf(saved.panes) == TreeLeaves(saved.tree);
  }

  lemma SavePaneWell(p: Panes, id: LeafId, cwd: string)
    requires id in p.launches && id in p.paneIds && p.paneIds[id] != ""
    ensures SavedWell(SavePane(p, id, cwd)) && SavePane(p, id, cwd).leaf == id
    ensures PoliciesManaged(p) ==> PolicyManaged(SavePane(p, id, cwd))
    ensures SavePane(p, id, cwd).paneId == p.paneIds[id]
  {}

  lemma SnapshotLeaves(p: Panes)
    requires Housed(p)
    ensures WellFormed(p.tree)
    ensures var ids := TreeLeaves(p.tree);
            && (forall i :: 0 <= i < |ids| ==> ids[i] in p.paneIds && ids[i] in p.launches)
            && (forall i, j :: 0 <= i < j < |ids| ==> p.paneIds[ids[i]] != p.paneIds[ids[j]])
  {
    var ids := TreeLeaves(p.tree);
    InElements(ids);
    forall i, j | 0 <= i < j < |ids| ensures p.paneIds[ids[i]] != p.paneIds[ids[j]] {
      assert ids[i] != ids[j];
    }
  }

  lemma SnapshotExists(p: Panes, cwd: LeafId -> string)
    requires Housed(p)
    ensures SnapshotLayout(p, cwd).Some?
  {
    var ids := TreeLeaves(p.tree);
    InElements(ids);
    assert ids[0] in p.hosts.Keys && ids[0] in p.launches.Keys;
    assert |p.hosts.Keys| > 0 && |p.launches.Keys| > 0;
  }

  lemma SavedWhenHoused(p: Panes, cwd: LeafId -> string)
    requires Sound(p)
    ensures SnapshotLayout(p, cwd).Some? <==> Housed(p)
  {
    SoundHoused(p);
    if Housed(p) {
      SnapshotExists(p, cwd);
    }
  }

  // ---------------------------------------------------------------------------
  // What restoring the first k panes yields

  /// The leaf records what its saved pane says; a policy or session reference
  /// the pane does not carry stays as it was.
  ghost predicate PaneRestored(q: Panes, base: Panes, deps: Deps, pane: PaneSnapshot, host: HostId) {
    && Lookup(q.hosts, pane.leaf) == Some(host)
    && Lookup(q.launches, pane.leaf) == Some(Completed(pane.launch, deps))
    && Lookup(q.names, pane.leaf) == (if pane.name == "" then None else Some(pane.name))
    && Lookup(q.paneIds, pane.leaf) == Some(pane.paneId)
    && Lookup(q.agents, pane.leaf) == pane.agent
    && Lookup(q.policies, pane.leaf) ==
      (if pane.agent.Some? then Some(pane.policy) else Lookup(base.policies, pane.leaf))
    && Lookup(q.sessions, pane.leaf) == (if pane.session.Some? then pane.session else Lookup(base.sessions, pane.leaf))
  }

  ghost predicate KeysRestored(q: Panes, base: Panes, done: set<LeafId>) {
    && Tabled(q, done) && q.names.Keys <= done && q.agents.Keys <= done
    && q.policies.Keys <= base.policies.Keys + done && q.sessions.Keys <= base.sessions.Keys + done
    && (forall id :: id in q.generations ==> q.generations[id] < q.nextGeneration)
    && Injective(q.generations)
    && q.tree == base.tree && q.zoomed == base.zoomed && q.zoomedLeaf == base.zoomedLeaf
    && q.previewLeaf == base.previewLeaf && q.previewOwner == base.previewOwner
  }

  ghost predicate Blank(base: Panes) {
    && base.hosts == map[] && base.launches == map[] && base.names == map[] && base.paneIds == map[]
    && base.agents == map[] && base.generations == map[]
  }

  ghost predicate AllStart(deps: Deps, panes: seq<PaneSnapshot>, factory: LeafId -> HostMaker) {
    forall i :: 0 <= i < |panes| ==>
      StartsAs(deps, RuntimeLaunch(deps, panes[i]), i == 0, false, factory(panes[i].leaf)).Some?
  }

  /// The host the i-th pane of a layout starts with.
  ghost function HostOf(deps: Deps, panes: seq<PaneSnapshot>, i: nat, factory: LeafId -> HostMaker): Option<HostId>
    requires i < |panes|
  {
    StartsAs(deps, RuntimeLaunch(deps, panes[i]), i == 0, false, factory(panes[i].leaf))
  }

  lemma RestorePaneKeys(p: Panes, base: Panes, deps: Deps, pane: PaneSnapshot, primary: bool, m: HostMaker,
                        done: set<LeafId>)
    requires KeysRestored(p, base, done) && pane.leaf !in done
    requires pane.leaf in TreeLeaves(p.tree) && pane.paneId != ""
    requires RestorePane(p, deps, pane, primary, m).1
    ensures KeysRestored(RestorePane(p, deps, pane, primary, m).0, base, done + {pane.leaf})
  {
    hide RestorePane;
    hide StartsAs;
    RestorePaneFrame(p, deps, pane, primary, m);
    RestorePaneTables(p, deps, pane, primary, m);
    var q := RestorePane(p, deps, pane, primary, m).0;
    GenerationAdded(p.generations, p.nextGeneration, pane.leaf, q.generations);
    hide Injective;
    TabledWith(p, q, pane.leaf, done);
    hide Tabled;
  }

  /// A restored pane in one step: its id, its host and its records.
  lemma RestorePaneForm(p: Panes, deps: Deps, pane: PaneSnapshot, primary: bool, m: HostMaker)
    ensures var made := StartsAs(deps, RuntimeLaunch(deps, pane), primary, false, m);
            var (q, ok) := RestorePane(p, deps, pane, primary, m);
            && (ok <==> pane.leaf in TreeLeaves(p.tree) && pane.paneId != "" && made.Some?)
            && (ok ==>
                  q == Recorded(Installed(Identified(p, pane), pane.leaf, made.value, RuntimeLaunch(deps, pane)),
                                deps, pane))
  {
    hide StartsAs;
    hide RuntimeLaunch;
    hide Recorded;
    hide Installed;
    hide RaisedSerial;
  }

  lemma RestorePaneTables(p: Panes, deps: Deps, pane: PaneSnapshot, primary: bool, m: HostMaker)
    requires RestorePane(p, deps, pane, primary, m).1
    ensures var q := RestorePane(p, deps, pane, primary, m).0;
            && q.hosts.Keys == p.hosts.Keys + {pane.leaf} && q.launches.Keys == p.launches.Keys + {pane.leaf}
            && q.paneIds.Keys == p.paneIds.Keys + {pane.leaf} && q.generations.Keys == p.generations.Keys + {pane.leaf}
            && q.generations == p.generations[pane.leaf := p.nextGeneration] && q.nextGeneration == p.nextGeneration + 1
  {
    RestorePaneForm(p, deps, pane, primary, m);
    var made := StartsAs(deps, RuntimeLaunch(deps, pane), primary, false, m);
    hide RestorePane;
    hide StartsAs;
    hide RuntimeLaunch;
    FormTables(p, deps, pane, made.value, RuntimeLaunch(deps, pane));
    hide Recorded;
    hide Installed;
    hide Identified;
  }

  lemma FormTables(p: Panes, deps: Deps, pane: PaneSnapshot, host: HostId, launch: Launch)
    ensures var q := Recorded(Installed(Identified(p, pane), pane.leaf, host, launch), deps, pane);
            && q.hosts.Keys == p.hosts.Keys + {pane.leaf} && q.launches.Keys == p.launches.Keys + {pane.leaf}
            && q.paneIds.Keys == p.paneIds.Keys + {pane.leaf} && q.generations.Keys == p.generations.Keys + {pane.leaf}
            && q.generations == p.generations[pane.leaf := p.nextGeneration] && q.nextGeneration == p.nextGeneration + 1
  {
    hide Completed;
    hide Put;
    hide RaisedSerial;
    PutTwice(p.launches, pane.leaf, launch, Completed(pane.launch, deps));
  }

  lemma PutTwice<V>(m: map<LeafId, V>, id: LeafId, a: V, b: V)
    ensures m[id := a][id := b].Keys == m.Keys + {id}
  {}

  lemma RestorePaneFrame(p: Panes, deps: Deps, pane: PaneSnapshot, primary: bool, m: HostMaker)
    requires RestorePane(p, deps, pane, primary, m).1
    ensures var q := RestorePane(p, deps, pane, primary, m).0;
            && q.tree == p.tree && q.zoomed == p.zoomed && q.zoomedLeaf == p.zoomedLeaf
            && q.previewLeaf == p.previewLeaf && q.previewOwner == p.previewOwner
            && q.names.Keys <= p.names.Keys + {pane.leaf} && q.agents.Keys <= p.agents.Keys + {pane.leaf}
            && q.policies.Keys <= p.policies.Keys + {pane.leaf} && q.sessions.Keys <= p.sessions.Keys + {pane.leaf}
  {
    RestorePaneForm(p, deps, pane, primary, m);
    hide RestorePane;
    hide StartsAs;
    hide RuntimeLaunch;
    hide Completed;
    hide Put;
  }

  lemma TabledWith(p: Panes, q: Panes, id: LeafId, done: set<LeafId>)
    requires Tabled(p, done) && q.hosts.Keys == p.hosts.Keys + {id} && q.launches.Keys == p.launches.Keys + {id}
    requires q.paneIds.Keys == p.paneIds.Keys + {id} && q.generations.Keys == p.generations.Keys + {id}
    ensures Tabled(q, done + {id})
  {}

  lemma RestorePaneLaw(p: Panes, base: Panes, deps: Deps, pane: PaneSnapshot, primary: bool, m: HostMaker)
    requires pane.leaf in TreeLeaves(p.tree) && pane.paneId != ""
    requires Blank(base) && pane.leaf !in p.names && pane.leaf !in p.agents
    requires Lookup(p.policies, pane.leaf) == Lookup(base.policies, pane.leaf)
    requires Lookup(p.sessions, pane.leaf) == Lookup(base.sessions, pane.leaf)
    requires StartsAs(deps, RuntimeLaunch(deps, pane), primary, false, m).Some?
    ensures var (q, ok) := RestorePane(p, deps, pane, primary, m);
            ok && PaneRestored(q, base, deps, pane, StartsAs(deps, RuntimeLaunch(deps, pane), primary, false, m).value)
  {
    RestorePaneForm(p, deps, pane, primary, m);
    hide RestorePane;
    hide StartsAs;
    hide RuntimeLaunch;
    hide Completed;
    hide Put;
  }

  lemma RestorePaneElsewhere(p: Panes, deps: Deps, pane: PaneSnapshot, primary: bool, m: HostMaker, id: LeafId)
    requires RestorePane(p, deps, pane, primary, m).1 && id != pane.leaf
    ensures SameLeaf(p, RestorePane(p, deps, pane, primary, m).0, id)
  {
    RestorePaneForm(p, deps, pane, primary, m);
    hide RestorePane;
    hide StartsAs;
    hide RuntimeLaunch;
    hide Completed;
    hide Put;
  }

  /// The first k panes are restored and the others not begun.
  ghost predicate RestoredUpTo(q: Panes, base: Panes, deps: Deps, panes: seq<PaneSnapshot>, k: nat,
                               factory: LeafId -> HostMaker)
    requires k <= |panes| && AllStart(deps, panes, factory)
  {
    && KeysRestored(q, base, Elements(LeavesOf(panes)[..k]))
    && (forall i :: 0 <= i < k ==> PaneRestored(q, base, deps, panes[i], HostOf(deps, panes, i, factory).value))
    && (forall id :: id !in Elements(LeavesOf(panes)[..k]) ==> SameLeaf(base, q, id))
  }

  lemma RestoreStep(p: Panes, base: Panes, deps: Deps, panes: seq<PaneSnapshot>, k: nat, factory: LeafId -> HostMaker)
    requires k < |panes| && Blank(base) && Distinct(LeavesOf(panes)) && AllStart(deps, panes, factory)
    requires panes[k].leaf in TreeLeaves(base.tree) && panes[k].paneId != ""
    requires RestoredUpTo(p, base, deps, panes, k, factory)
    ensures var (q, ok) := RestorePane(p, deps, panes[k], k == 0, factory(panes[k].leaf));
            ok && RestoredUpTo(q, base, deps, panes, k + 1, factory)
  {
    var pane := panes[k];
    assert HostOf(deps, panes, k, factory).Some?;
    LeafNotDone(panes, k);
    RestorePaneLaw(p, base, deps, pane, k == 0, factory(pane.leaf));
    hide RestorePane;
    hide StartsAs;
    hide RuntimeLaunch;
    var q := RestorePane(p, deps, pane, k == 0, factory(pane.leaf)).0;
    forall id | id != pane.leaf ensures SameLeaf(p, q, id) {
      RestorePaneElsewhere(p, deps, pane, k == 0, factory(pane.leaf), id);
    }
    RestorePaneKeys(p, base, deps, pane, k == 0, factory(pane.leaf), Elements(LeavesOf(panes)[..k]));
    hide KeysRestored;
    forall i | 0 <= i < k
      ensures PaneRestored(q, base, deps, panes[i], HostOf(deps, panes, i, factory).value)
    {
      StaysRestored(p, q, base, deps, panes[i], HostOf(deps, panes, i, factory).value);
    }
    forall id | id !in Elements(LeavesOf(panes)[..k + 1]) ensures SameLeaf(base, q, id) {
      SameLeafTrans(base, p, q, id);
    }
  }

  lemma NothingRestored(base: Panes, deps: Deps, panes: seq<PaneSnapshot>, factory: LeafId -> HostMaker)
    requires Blank(base) && AllStart(deps, panes, factory)
    ensures RestoredUpTo(base, base, deps, panes, 0, factory)
  {
    assert LeavesOf(panes)[..0] == [];
    assert Elements(LeavesOf(panes)[..0]) == {};
  }

  lemma StaysRestored(p: Panes, q: Panes, base: Panes, deps: Deps, pane: PaneSnapshot, host: HostId)
    requires PaneRestored(p, base, deps, pane, host) && SameLeaf(p, q, pane.leaf)
    ensures PaneRestored(q, base, deps, pane, host)
  {}

  lemma SameLeafTrans(p: Panes, q: Panes, r: Panes, id: LeafId)
    requires SameLeaf(p, q, id) && SameLeaf(q, r, id)
    ensures SameLeaf(p, r, id)
  {}

  lemma {:induction false} RestorePanesLaw(base: Panes, deps: Deps, panes: seq<PaneSnapshot>, k: nat,
                                           factory: LeafId -> HostMaker)
    requires k <= |panes| && Blank(base) && Distinct(LeavesOf(panes)) && AllStart(deps, panes, factory)
    requires forall i :: 0 <= i < |panes| ==> panes[i].leaf in TreeLeaves(base.tree) && panes[i].paneId != ""
    ensures RestorePanes(base, deps, panes, k, factory).1
    ensures RestoredUpTo(RestorePanes(base, deps, panes, k, factory).0, base, deps, panes, k, factory)
  {
    hide RestorePane;
    hide RestoredUpTo;
    if k == 0 {
      NothingRestored(base, deps, panes, factory);
    } else {
      RestorePanesLaw(base, deps, panes, k - 1, factory);
      RestoreStep(RestorePanes(base, deps, panes, k - 1, factory).0, base, deps, panes, k - 1, factory);
    }
  }

  lemma LeafNotDone(panes: seq<PaneSnapshot>, k: nat)
    requires k < |panes| && Distinct(LeavesOf(panes))
    ensures panes[k].leaf !in Elements(LeavesOf(panes)[..k])
    ensures Elements(LeavesOf(panes)[..k + 1]) == Elements(LeavesOf(panes)[..k]) + {panes[k].leaf}
    ensures forall i :: 0 <= i < |panes| && i != k ==> panes[i].leaf != panes[k].leaf
  {
    var ids := LeavesOf(panes);
    assert ids[k] == panes[k].leaf;
    assert ids[..k + 1] == ids[..k] + [ids[k]];
    ElementsOfAppend(ids[..k], [ids[k]]);
    forall i | 0 <= i < |panes| && i != k ensures panes[i].leaf != panes[k].leaf {
      assert ids[i] == panes[i].leaf;
    }
  }

  // ---------------------------------------------------------------------------
  // Whole layouts

  /// Restoring a saved layout whose hosts all start puts back the tree, the zoom
  /// and everything recorded for each pane, with consistent tables. A focus saved
  /// behind the zoom comes back on the zoomed leaf.
  lemma RestoreLayoutLaw(p: Panes, deps: Deps, saved: LayoutSnapshot, factory: LeafId -> HostMaker)
    requires WellSaved(saved) && AllStart(deps, saved.panes, factory)
    ensures var (q, ok) := RestoreLayout(p, deps, saved, factory);
            && ok && q.tree == Settled(saved).tree && q.zoomed == saved.zoomed && q.zoomedLeaf == saved.zoomedLeaf
            && Housed(q) && ZoomShown(q) && Strays(q) == (p.policies.Keys + p.sessions.Keys) - LeafSet(saved.tree)
            && (forall i :: 0 <= i < |saved.panes| ==>
                  PaneRestored(q, p, deps, saved.panes[i], HostOf(deps, saved.panes, i, factory).value))
  {
    var base := Shutdown(p).(tree := saved.tree);
    SavedLeaves(saved);
    hide WellFormed;
    hide Restore;
    hide RestorePanes;
    hide RestorePane;
    hide StartsAs;
    hide RuntimeLaunch;
    hide RestoreLayout;
    hide RestoreZoom;
    hide RestoredUpTo;
    RestorePanesLaw(base, deps, saved.panes, |saved.panes|, factory);
    var q := RestorePanes(base, deps, saved.panes, |saved.panes|, factory).0;
    RestoredKeys(q, base, deps, saved.panes, factory);
    RestoredIsHoused(q, base, deps, saved, factory);
    RestoredStrays(q, base, deps, saved, factory);
    RestoreSucceeds(p, q, deps, saved, factory);
    ZoomPutBack(q, saved);
    hide Housed;
    hide ZoomShown;
    RestoredRecords(p, q, RestoreZoom(q, saved), deps, saved.panes, factory, saved.tree);
  }

  lemma RestoredIsHoused(q: Panes, base: Panes, deps: Deps, saved: LayoutSnapshot, factory: LeafId -> HostMaker)
    requires WellSaved(saved) && AllStart(deps, saved.panes, factory)
    requires base.tree == saved.tree && base.previewLeaf == INVALID_LEAF && base.previewOwner == INVALID_LEAF
    requires KeysRestored(q, base, LeafSet(saved.tree))
    requires RestoredUpTo(q, base, deps, saved.panes, |saved.panes|, factory)
    ensures Housed(q)
  {
    hide WellFormed;
    hide StartsAs;
    hide RuntimeLaunch;
    RestoredIdsDistinct(q, base, deps, saved, factory);
    hide RestoredUpTo;
    hide Injective;
  }

  /// What is left beside the restored leaves is what a shutdown does not clear.
  lemma RestoredStrays(q: Panes, base: Panes, deps: Deps, saved: LayoutSnapshot, factory: LeafId -> HostMaker)
    requires Blank(base) && AllStart(deps, saved.panes, factory) && q.hosts.Keys == LeafSet(saved.tree)
    requires LeavesOf(saved.panes)[..|saved.panes|] == TreeLeaves(saved.tree)
    requires RestoredUpTo(q, base, deps, saved.panes, |saved.panes|, factory)
    ensures Strays(q) == (base.policies.Keys + base.sessions.Keys) - LeafSet(saved.tree)
  {
    hide StartsAs;
    hide RuntimeLaunch;
    hide KeysRestored;
    hide PaneRestored;
    hide AllStart;
    forall id ensures id in Strays(q) <==> id in (base.policies.Keys + base.sessions.Keys) - LeafSet(saved.tree) {
      if id !in q.hosts {
        assert SameLeaf(base, q, id);
      }
    }
  }

  lemma RestoredIdsDistinct(q: Panes, base: Panes, deps: Deps, saved: LayoutSnapshot, factory: LeafId -> HostMaker)
    requires WellSaved(saved) && AllStart(deps, saved.panes, factory)
    requires q.paneIds.Keys == LeafSet(saved.tree)
    requires RestoredUpTo(q, base, deps, saved.panes, |saved.panes|, factory)
    ensures Injective(q.paneIds)
  {
    hide WellFormed;
    hide StartsAs;
    hide RuntimeLaunch;
    hide KeysRestored;
    forall a, b | a in q.paneIds && b in q.paneIds && a != b ensures q.paneIds[a] != q.paneIds[b] {
      var i := SavedAt(q, base, deps, saved, factory, a);
      var j := SavedAt(q, base, deps, saved, factory, b);
    }
  }

  lemma SavedAt(q: Panes, base: Panes, deps: Deps, saved: LayoutSnapshot, factory: LeafId -> HostMaker, id: LeafId)
    returns (i: nat)
    requires WellSaved(saved) && AllStart(deps, saved.panes, factory) && id in LeafSet(saved.tree)
    requires RestoredUpTo(q, base, deps, saved.panes, |saved.panes|, factory)
    ensures i < |saved.panes| && saved.panes[i].leaf == id && Lookup(q.paneIds, id) == Some(saved.panes[i].paneId)
  {
    hide WellFormed;
    hide StartsAs;
    hide RuntimeLaunch;
    hide KeysRestored;
    i := IndexOf(LeavesOf(saved.panes), id);
    assert PaneRestored(q, base, deps, saved.panes[i], HostOf(deps, saved.panes, i, factory).value);
  }

  lemma SavedLeaves(saved: LayoutSnapshot)
    requires WellSaved(saved)
    ensures Restore(saved.tree) == Some(saved.tree)
    ensures Distinct(LeavesOf(saved.panes)) && |saved.panes| > 0
    ensures LeavesOf(saved.panes)[..|saved.panes|] == TreeLeaves(saved.tree)
    ensures forall i :: 0 <= i < |saved.panes| ==>
              saved.panes[i].leaf in TreeLeaves(saved.tree) && saved.panes[i].paneId != ""
  {
    RestoreLaw(saved.tree);
    assert |LeavesOf(saved.panes)| > 0;
    forall i | 0 <= i < |saved.panes| ensures saved.panes[i].leaf in TreeLeaves(saved.tree) {
      assert LeavesOf(saved.panes)[i] in TreeLeaves(saved.tree);
    }
  }

  lemma RestoredKeys(q: Panes, base: Panes, deps: Deps, panes: seq<PaneSnapshot>, factory: LeafId -> HostMaker)
    requires AllStart(deps, panes, factory) && RestoredUpTo(q, base, deps, panes, |panes|, factory)
    ensures KeysRestored(q, base, Elements(LeavesOf(panes)[..|panes|]))
  {}

  lemma RestoredRecords(p: Panes, q: Panes, r: Panes, deps: Deps, panes: seq<PaneSnapshot>,
                        factory: LeafId -> HostMaker, tree: SplitTree)
    requires AllStart(deps, panes, factory)
    requires RestoredUpTo(q, Shutdown(p).(tree := tree), deps, panes, |panes|, factory)
    requires r == q.(tree := r.tree, zoomed := r.zoomed, zoomedLeaf := r.zoomedLeaf)
    ensures forall i :: 0 <= i < |panes| ==> PaneRestored(r, p, deps, panes[i], HostOf(deps, panes, i, factory).value)
  {
    hide StartsAs;
    hide RuntimeLaunch;
    hide KeysRestored;
    forall i | 0 <= i < |panes|
      ensures PaneRestored(r, p, deps, panes[i], HostOf(deps, panes, i, factory).value)
    {
      assert PaneRestored(q, Shutdown(p).(tree := tree), deps, panes[i], HostOf(deps, panes, i, factory).value);
    }
  }

  lemma RestoreSucceeds(p: Panes, q: Panes, deps: Deps, saved: LayoutSnapshot, factory: LeafId -> HostMaker)
    requires Restore(saved.tree) == Some(saved.tree) && |saved.panes| > 0
    requires RestorePanes(Shutdown(p).(tree := saved.tree), deps, saved.panes, |saved.panes|, factory) == (q, true)
    ensures RestoreLayout(p, deps, saved, factory) == (RestoreZoom(q, saved), true)
  {
    hide RestorePanes;
    hide Restore;
    hide RestoreZoom;
  }

  lemma ZoomPutBack(q: Panes, saved: LayoutSnapshot)
    requires WellSaved(saved) && Housed(q) && q.tree == saved.tree
    ensures RestoreZoom(q, saved) ==
              q.(tree := Settled(saved).tree, zoomed := saved.zoomed, zoomedLeaf := saved.zoomedLeaf)
    ensures Housed(RestoreZoom(q, saved)) && ZoomShown(RestoreZoom(q, saved))
  {
    assert |TreeLeaves(saved.tree)| == |LeavesOf(saved.panes)|;
    InElements(TreeLeaves(saved.tree));
    if saved.zoomed {
      SetFocusedLaw(saved.tree, saved.zoomedLeaf);
    }
    hide Backed;
    hide Injective;
  }

  lemma RestorePaneNeedsHost(p: Panes, deps: Deps, pane: PaneSnapshot, primary: bool, m: HostMaker)
    ensures RestorePane(p, deps, pane, primary, m).1 ==>
              StartsAs(deps, RuntimeLaunch(deps, pane), primary, false, m).Some?
    ensures Unmoved(p, RestorePane(p, deps, pane, primary, m).0)
  {
    hide StartsAs;
    hide RuntimeLaunch;
    hide Completed;
    hide RaisedSerial;
    CreateOnlyTables(Identified(p, pane), deps, pane.leaf, RuntimeLaunch(deps, pane), primary, false, m);
    hide CreateHost;
  }

  /// Tree and zoom stay, and policies and session references are only recorded
  /// for leaves of the tree.
  ghost predicate Unmoved(p: Panes, q: Panes) {
    && q.tree == p.tree && q.zoomed == p.zoomed && q.zoomedLeaf == p.zoomedLeaf
    && (forall id :: id in q.policies ==> id in p.policies || id in TreeLeaves(p.tree))
    && (forall id :: id in q.sessions ==> id in p.sessions || id in TreeLeaves(p.tree))
  }

  /// The first pane whose host does not start ends a restore.
  lemma {:induction false} RestorePanesNeedsAll(p: Panes, deps: Deps, panes: seq<PaneSnapshot>, k: nat,
                                                factory: LeafId -> HostMaker)
    requires k <= |panes|
    ensures var (q, ok) := RestorePanes(p, deps, panes, k, factory);
            && (ok ==> forall i :: 0 <= i < k ==> HostOf(deps, panes, i, factory).Some?)
            && Unmoved(p, q)
  {
    hide RestorePane;
    if k > 0 {
      RestorePanesNeedsAll(p, deps, panes, k - 1, factory);
      var p1 := RestorePanes(p, deps, panes, k - 1, factory).0;
      RestorePaneNeedsHost(p1, deps, panes[k - 1], k - 1 == 0, factory(panes[k - 1].leaf));
    }
  }

  /// A restore in which some host does not start leaves the saved tree without
  /// any host, and the policies and session references recorded before.
  lemma RestoreFails(p: Panes, deps: Deps, saved: LayoutSnapshot, factory: LeafId -> HostMaker)
    requires WellSaved(saved) && !AllStart(deps, saved.panes, factory)
    ensures var (q, ok) := RestoreLayout(p, deps, saved, factory);
            && !ok && q.tree == saved.tree && q == Shutdown(q) && q.zoomed == p.zoomed && q.zoomedLeaf == p.zoomedLeaf
            && Strays(q) <= p.policies.Keys + p.sessions.Keys + LeafSet(saved.tree)
  {
    SavedLeaves(saved);
    hide WellFormed;
    hide Restore;
    hide RestorePanes;
    hide StartsAs;
    hide RuntimeLaunch;
    var base := Shutdown(p).(tree := saved.tree);
    RestorePanesNeedsAll(base, deps, saved.panes, |saved.panes|, factory);
    if RestorePanes(base, deps, saved.panes, |saved.panes|, factory).1 {
      forall i | 0 <= i < |saved.panes|
        ensures StartsAs(deps, RuntimeLaunch(deps, saved.panes[i]), i == 0, false, factory(saved.panes[i].leaf)).Some?
      {
        assert HostOf(deps, saved.panes, i, factory).Some?;
      }
    }
    hide AllStart;
    assert forall id :: id in base.policies <==> id in p.policies;
    StraysAfterShutdown(base, RestorePanes(base, deps, saved.panes, |saved.panes|, factory).0);
  }

  lemma StraysAfterShutdown(base: Panes, q: Panes)
    requires Unmoved(base, q)
    ensures Strays(Shutdown(q)) <= base.policies.Keys + base.sessions.Keys + LeafSet(base.tree)
  {
    forall id | id in Strays(Shutdown(q)) ensures id in base.policies.Keys + base.sessions.Keys + LeafSet(base.tree) {
      assert id in q.policies || id in q.sessions;
    }
  }

  /// The launch survives a restore and a second save when the capture file is
  /// the one in force and the directory reported, or kept, is the saved one.
  predicate LaunchSurvives(deps: Deps, launch: Launch, cwd: string) {
    && launch.ptyCaptureFile == deps.ptyCaptureFile
    && (if cwd == "" then launch.workingDir != "" || DefaultDir(deps) == "" else launch.workingDir == cwd)
  }

  /// A policy other than the default belongs to a saved agent.
  predicate PolicyManaged(pane: PaneSnapshot) {
    pane.agent.None? ==> pane.policy == ResumeIfAvailable
  }

  predicate PaneSurvives(deps: Deps, pane: PaneSnapshot, cwd: string) {
    LaunchSurvives(deps, pane.launch, cwd) && PolicyManaged(pane)
  }

  ghost predicate PanesSurvive(deps: Deps, saved: LayoutSnapshot, cwd: LeafId -> string) {
    forall i :: 0 <= i < |saved.panes| ==> PaneSurvives(deps, saved.panes[i], cwd(saved.panes[i].leaf))
  }

  /// A restored pane saves as it was saved before exactly when it survives.
  lemma PaneSavedAgain(q: Panes, base: Panes, deps: Deps, pane: PaneSnapshot, host: HostId, cwd: string)
    requires PaneRestored(q, base, deps, pane, host) && SavedWell(pane)
    requires base.policies == map[] && base.sessions == map[]
    ensures pane.leaf in q.launches
    ensures SavePane(q, pane.leaf, cwd) == pane <==> PaneSurvives(deps, pane, cwd)
  {
    var again := SavePane(q, pane.leaf, cwd);
    assert again == pane.(launch := again.launch, policy := again.policy);
  }

  /// A tab is saved exactly when every leaf has its host. Save, restore in a fresh
  /// manager and save again: the second snapshot is the first exactly when no focus
  /// was behind a zoom and every pane survives. A focus behind a zoom is all that a
  /// restore otherwise changes.
  lemma SaveRestoreSave(p: Panes, deps: Deps, cwd: LeafId -> string, factory: LeafId -> HostMaker,
                        cwd2: LeafId -> string)
    requires Sound(p)
    requires SnapshotLayout(p, cwd).Some? ==> AllStart(deps, SnapshotLayout(p, cwd).value.panes, factory)
    ensures SnapshotLayout(p, cwd).Some? <==> Housed(p)
    ensures Housed(p) ==>
              var saved := SnapshotLayout(p, cwd).value;
              var (q, ok) := RestoreLayout(NO_PANES, deps, saved, factory);
              && ok && Consistent(q) && ZoomShown(q) && NamedIds(q)
              && (SnapshotLayout(q, cwd2) == Some(Settled(saved)) <==> PanesSurvive(deps, saved, cwd2))
              && (SnapshotLayout(q, cwd2) == Some(saved) <==> ZoomShown(p) && PanesSurvive(deps, saved, cwd2))
  {
    SavedWhenHoused(p, cwd);
    hide Housed;
    hide SnapshotLayout;
    hide RestoreLayout;
    hide AllStart;
    hide WellSaved;
    hide PanesSurvive;
    if Housed(p) {
      SnapshotIsWellSaved(p, cwd);
      LayoutSavedAgain(deps, SnapshotLayout(p, cwd).value, factory, cwd2);
    }
  }

  lemma LayoutSavedAgain(deps: Deps, saved: LayoutSnapshot, factory: LeafId -> HostMaker, cwd2: LeafId -> string)
    requires WellSaved(saved) && AllStart(deps, saved.panes, factory)
    ensures var (q, ok) := RestoreLayout(NO_PANES, deps, saved, factory);
            && ok && Consistent(q) && ZoomShown(q) && NamedIds(q)
            && (SnapshotLayout(q, cwd2) == Some(Settled(saved)) <==> PanesSurvive(deps, saved, cwd2))
            && (SnapshotLayout(q, cwd2) == Some(saved) <==> FocusVisible(saved) && PanesSurvive(deps, saved, cwd2))
  {
    hide RestoreLayout;
    hide PanesSurvive;
    hide SnapshotLayout;
    hide Consistent;
    hide ZoomShown;
    hide NamedIds;
    hide SavePanes;
    hide Strays;
    hide WellSaved;
    RestoreLayoutLaw(NO_PANES, deps, saved, factory);
    var q := RestoreLayout(NO_PANES, deps, saved, factory).0;
    NothingAstray(q, saved);
    RestoredNamed(q, NO_PANES, deps, saved, factory);
    hide Housed;
    PanesSavedAgain(q, deps, saved, factory, cwd2);
    SnapshotOf(q, saved, cwd2);
    SettledOrNot(saved);
  }

  lemma NothingAstray(q: Panes, saved: LayoutSnapshot)
    requires Housed(q) && Strays(q) == (NO_PANES.policies.Keys + NO_PANES.sessions.Keys) - LeafSet(saved.tree)
             && q.tree == Settled(saved).tree
    ensures Consistent(q) && q.paneIds.Keys == LeafSet(saved.tree)
  {
    hide Strays;
    ConsistentExactly(q);
    hide Consistent;
    hide WellFormed;
    hide Injective;
  }

  lemma SettledOrNot(saved: LayoutSnapshot)
    ensures Settled(saved) == saved <==> FocusVisible(saved)
    ensures Settled(saved) == saved.(tree := Settled(saved).tree)
  {}

  /// The restored panes save as they were saved exactly when they all survive.
  lemma PanesSavedAgain(q: Panes, deps: Deps, saved: LayoutSnapshot, factory: LeafId -> HostMaker,
                        cwd2: LeafId -> string)
    requires WellSaved(saved) && AllStart(deps, saved.panes, factory) && Housed(q) && q.tree == Settled(saved).tree
    requires q.zoomed == saved.zoomed && q.zoomedLeaf == saved.zoomedLeaf
    requires forall i :: 0 <= i < |saved.panes| ==>
               PaneRestored(q, NO_PANES, deps, saved.panes[i], HostOf(deps, saved.panes, i, factory).value)
    ensures forall id :: id in TreeLeaves(saved.tree) ==> id in q.launches
    ensures SavePanes(q, TreeLeaves(saved.tree), cwd2) == saved.panes <==> PanesSurvive(deps, saved, cwd2)
  {
    hide PaneSurvives;
    hide SavePanes;
    hide Housed;
    hide PaneRestored;
    hide WellFormed;
    hide StartsAs;
    hide RuntimeLaunch;
    SnapshotOf(q, saved, cwd2);
    hide SnapshotLayout;
    var ids := TreeLeaves(saved.tree);
    var again := SavePanes(q, ids, cwd2);
    forall i | 0 <= i < |saved.panes|
      ensures again[i] == saved.panes[i] <==> PaneSurvives(deps, saved.panes[i], cwd2(saved.panes[i].leaf))
    {
      assert LeavesOf(saved.panes)[i] == ids[i];
      PaneSavedAgain(q, NO_PANES, deps, saved.panes[i], HostOf(deps, saved.panes, i, factory).value,
                     cwd2(saved.panes[i].leaf));
    }
    PointwiseEqual(again, saved.panes);
  }

  /// Restored panes have their stable ids back.
  lemma RestoredNamed(q: Panes, base: Panes, deps: Deps, saved: LayoutSnapshot, factory: LeafId -> HostMaker)
    requires WellSaved(saved) && AllStart(deps, saved.panes, factory) && q.paneIds.Keys == LeafSet(saved.tree)
    requires forall i :: 0 <= i < |saved.panes| ==>
               PaneRestored(q, base, deps, saved.panes[i], HostOf(deps, saved.panes, i, factory).value)
    ensures NamedIds(q)
  {
    hide WellFormed;
    hide StartsAs;
    hide RuntimeLaunch;
    forall id | id in q.paneIds ensures q.paneIds[id] != "" {
      var i := IndexOf(LeavesOf(saved.panes), id);
      assert PaneRestored(q, base, deps, saved.panes[i], HostOf(deps, saved.panes, i, factory).value);
    }
  }

  lemma SnapshotOf(q: Panes, saved: LayoutSnapshot, cwd: LeafId -> string)
    requires Housed(q) && WellSaved(saved)
    requires q.tree == Settled(saved).tree && q.zoomed == saved.zoomed && q.zoomedLeaf == saved.zoomedLeaf
    ensures forall id :: id in TreeLeaves(saved.tree) ==> id in q.launches
    ensures SnapshotLayout(q, cwd) == Some(Settled(saved).(panes := SavePanes(q, TreeLeaves(saved.tree), cwd)))
    ensures |SavePanes(q, TreeLeaves(saved.tree), cwd)| == |saved.panes|
    ensures forall i :: 0 <= i < |saved.panes| ==>
              SavePanes(q, TreeLeaves(saved.tree), cwd)[i] ==
                SavePane(q, TreeLeaves(saved.tree)[i], cwd(TreeLeaves(saved.tree)[i]))
  {
    hide WellFormed;
    SnapshotExists(q, cwd);
    InElements(TreeLeaves(q.tree));
    assert |LeavesOf(saved.panes)| == |TreeLeaves(saved.tree)|;
  }

  lemma PointwiseEqual<T>(s: seq<T>, t: seq<T>)
    requires |s| == |t|
    ensures s == t <==> forall i :: 0 <= i < |s| ==> s[i] == t[i]
  {}

  /// A resumed agent is started with its session reference, once: what the
  /// manager keeps, and so saves, is the profile's own command line.
  lemma ResumeIsOneTime(p: Panes, deps: Deps, saved: LayoutSnapshot, factory: LeafId -> HostMaker, i: nat)
    requires WellSaved(saved) && AllStart(deps, saved.panes, factory)
    requires i < |saved.panes| && Resumes(deps, saved.panes[i])
    ensures var pane := saved.panes[i];
            var q := RestoreLayout(p, deps, saved, factory).0;
            && RuntimeLaunch(deps, pane).args ==
                 [if pane.agent.value.kind == "codex" then "resume" else "--resume", pane.session.value.value]
            && pane.leaf in q.launches
            && q.launches[pane.leaf].args == pane.launch.args
            && q.launches[pane.leaf].startupCommands == pane.launch.startupCommands
  {
    RestoreLayoutLaw(p, deps, saved, factory);
    assert PaneRestored(RestoreLayout(p, deps, saved, factory).0, p, deps, saved.panes[i],
                        HostOf(deps, saved.panes, i, factory).value);
  }
}
