/** Which stable identities are handed out: never one below the serial counter, which
    a restore puts above every restored identity. */
module PaneSerials {
  import opened Identifiers
  import opened SplitTrees
  import opened PaneNames
  import opened PaneModel
  import opened PaneInvariants
  import opened PaneRoundTrip
  import opened PaneReconcile
  import opened PaneApply
  import opened PaneFailure
  import opened PaneRuns

  // ---------------------------------------------------------------------------
  // The counter after a restore

  /// The counter is above the serials of the first k panes, and no higher than it has to be.
  ghost predicate Above(next: nat, panes: seq<PaneSnapshot>, k: nat)
    requires k <= |panes|
  {
    && (forall i :: 0 <= i < k && ParsePaneName(panes[i].paneId).Some? ==>
        ParsePaneName(panes[i].paneId).value < next)
    && (next == 1 || exists i :: 0 <= i < k && ParsePaneName(panes[i].paneId) == Some(next - 1))
  }

  /// A pane that is restored takes no serial of its own.
  lemma RestoredSerial(p: Panes, deps: Deps, pane: PaneSnapshot, primary: bool, m: HostMaker)
    requires RestorePane(p, deps, pane, primary, m).1
    ensures RestorePane(p, deps, pane, primary, m).0.nextSerial == RaisedSerial(p.nextSerial, pane.paneId)
    ensures RestorePane(p, deps, pane, primary, m).0.paneIds == p.paneIds[pane.leaf := pane.paneId]
  {
    RestorePaneForm(p, deps, pane, primary, m);
    hide RestorePane;
    hide StartsAs;
    hide RuntimeLaunch;
    hide Completed;
    hide Put;
    hide RaisedSerial;
  }

  lemma {:induction false} RestoredAbove(p: Panes, deps: Deps, panes: seq<PaneSnapshot>, k: nat,
                                         factory: LeafId -> HostMaker)
    requires k <= |panes| && p.nextSerial == 1 && RestorePanes(p, deps, panes, k, factory).1
    ensures Above(RestorePanes(p, deps, panes, k, factory).0.nextSerial, panes, k)
  {
    hide RestorePane;
    hide Above;
    if k == 0 {
      NoneAbove(panes);
    } else {
      RestoredAbove(p, deps, panes, k - 1, factory);
      var q := RestorePanes(p, deps, panes, k - 1, factory).0;
      RestoredSerial(q, deps, panes[k - 1], k - 1 == 0, factory(panes[k - 1].leaf));
      RaisedAbove(q.nextSerial, panes, k - 1);
    }
  }

  lemma NoneAbove(panes: seq<PaneSnapshot>)
    ensures Above(1, panes, 0)
  {}

  lemma RaisedAbove(next: nat, panes: seq<PaneSnapshot>, k: nat)
    requires k < |panes| && Above(next, panes, k)
    ensures Above(RaisedSerial(next, panes[k].paneId), panes, k + 1)
  {
    hide ParsePaneName;
    var raised := RaisedSerial(next, panes[k].paneId);
    if raised == next && next != 1 {
      var i :| 0 <= i < k && ParsePaneName(panes[i].paneId) == Some(next - 1);
      assert 0 <= i < k + 1;
    } else if raised != next {
      assert ParsePaneName(panes[k].paneId) == Some(raised - 1);
    }
  }

  /// After a restore every restored serial is below the counter, which is one or one
  /// past a restored serial.
  lemma RestoreRaisesSerials(p: Panes, deps: Deps, saved: LayoutSnapshot, factory: LeafId -> HostMaker)
    requires RestoreLayout(p, deps, saved, factory).1
    ensures Above(RestoreLayout(p, deps, saved, factory).0.nextSerial, saved.panes, |saved.panes|)
  {
    var base := Shutdown(p).(tree := Restore(saved.tree).value);
    hide RestorePanes;
    hide Above;
    hide Restore;
    RestoredAbove(base, deps, saved.panes, |saved.panes|, factory);
    ZoomCounters(RestorePanes(base, deps, saved.panes, |saved.panes|, factory).0, saved);
    hide RestoreZoom;
  }

  lemma ZoomCounters(q: Panes, saved: LayoutSnapshot)
    ensures var r := RestoreZoom(q, saved);
            r.nextSerial == q.nextSerial && r.nextGeneration == q.nextGeneration && r.generations == q.generations
  {
    hide TreeLeaves;
    hide SetFocused;
  }

  /// Generations start over with a restore: its panes have 1, 2, 3 and so on, in saved order.
  lemma RestoreNumbersPanes(p: Panes, deps: Deps, saved: LayoutSnapshot, factory: LeafId -> HostMaker)
    requires RestoreLayout(p, deps, saved, factory).1 && Distinct(LeavesOf(saved.panes))
    ensures var q := RestoreLayout(p, deps, saved, factory).0;
            && q.nextGeneration == |saved.panes| + 1
            && forall i :: 0 <= i < |saved.panes| ==> Lookup(q.generations, saved.panes[i].leaf) == Some(i + 1)
  {
    var base := Shutdown(p).(tree := Restore(saved.tree).value);
    hide RestorePanes;
    hide Restore;
    NumbersPanes(base, deps, saved.panes, |saved.panes|, factory);
    ZoomCounters(RestorePanes(base, deps, saved.panes, |saved.panes|, factory).0, saved);
    hide RestoreZoom;
  }

  lemma {:induction false} NumbersPanes(p: Panes, deps: Deps, panes: seq<PaneSnapshot>, k: nat,
                                        factory: LeafId -> HostMaker)
    requires k <= |panes| && p.nextGeneration == 1 && Distinct(LeavesOf(panes))
    requires RestorePanes(p, deps, panes, k, factory).1
    ensures var q := RestorePanes(p, deps, panes, k, factory).0;
            && q.nextGeneration == k + 1
            && forall i :: 0 <= i < k ==> Lookup(q.generations, panes[i].leaf) == Some(i + 1)
  {
    hide RestorePane;
    if k > 0 {
      NumbersPanes(p, deps, panes, k - 1, factory);
      var q := RestorePanes(p, deps, panes, k - 1, factory).0;
      RestorePaneTables(q, deps, panes[k - 1], k - 1 == 0, factory(panes[k - 1].leaf));
      LeafNotDone(panes, k - 1);
    }
  }

  // ---------------------------------------------------------------------------
  // What one operation hands out

  ghost predicate Named(text: string, from: nat, to: nat) {
    exists n :: from <= n < to && text == PaneName(n)
  }

  /// Every identity in q is the leaf's own from p or was made of a serial issued after p.
  ghost predicate NewIds(p: Panes, q: Panes) {
    && p.nextSerial <= q.nextSerial
    && (Injective(p.paneIds) ==> Injective(q.paneIds))
    && forall id :: id in q.paneIds ==>
         Lookup(p.paneIds, id) == Some(q.paneIds[id]) || Named(q.paneIds[id], p.nextSerial, q.nextSerial)
  }

  ghost predicate SameIdTable(p: Panes, q: Panes) {
    q.paneIds == p.paneIds && q.nextSerial == p.nextSerial
  }

  lemma WithPaneIdNew(p: Panes, id: LeafId)
    ensures NewIds(p, WithPaneId(p, id))
  {
    if Injective(p.paneIds) { PaneIdIsNew(p, id); }
    FreshSerialLaw(p.paneIds.Values, p.nextSerial);
    hide FreshSerial;
    hide PaneName;
    hide Injective;
    if id !in p.paneIds {
      var serial := FreshSerial(p.paneIds.Values, p.nextSerial);
      assert Named(PaneName(serial), p.nextSerial, serial + 1);
    }
  }

  lemma FewerIds(p: Panes, q: Panes, r: Panes, id: LeafId)
    requires NewIds(p, q) && r.nextSerial == q.nextSerial && (r.paneIds == q.paneIds || r.paneIds == q.paneIds - {id})
    ensures NewIds(p, r)
  {
    hide Named;
  }

  lemma CreateNewIds(p: Panes, deps: Deps, id: LeafId, launch: Launch, primary: bool, preserve: bool, m: HostMaker)
    ensures NewIds(p, CreateHost(p, deps, id, launch, primary, preserve, m).0)
  {
    CreateIds(p, deps, id, launch, primary, preserve, m);
    WithPaneIdNew(p, id);
    hide CreateHost;
    hide StartsAs;
    hide WithPaneId;
    hide NewIds;
    FewerIds(p, WithPaneId(p, id), CreateHost(p, deps, id, launch, primary, preserve, m).0, id);
  }

  lemma CreateIds(p: Panes, deps: Deps, id: LeafId, launch: Launch, primary: bool, preserve: bool, m: HostMaker)
    ensures var q, r := CreateHost(p, deps, id, launch, primary, preserve, m).0, WithPaneId(p, id);
            && q.nextSerial == r.nextSerial
            && (StartsAs(deps, launch, primary, preserve, m).Some? ==> q.paneIds == r.paneIds)
            && (StartsAs(deps, launch, primary, preserve, m).None? ==> q.paneIds == r.paneIds - {id})
  {
    hide StartsAs;
    hide WithPaneId;
    hide Installed;
    if StartsAs(deps, launch, primary, preserve, m).Some? {
      InstalledIds(WithPaneId(p, id), id, StartsAs(deps, launch, primary, preserve, m).value, launch);
    }
  }

  lemma InstalledIds(p: Panes, id: LeafId, host: HostId, launch: Launch)
    ensures SameIdTable(p, Installed(p, id, host, launch))
  {}

  /// What happens before and after leaves identities alone.
  lemma Framed(p: Panes, q: Panes, q': Panes, p': Panes)
    requires (NewIds(q, q') && SameIdTable(p, q) && SameIdTable(q', p')) || SameIdTable(p, p')
    ensures NewIds(p, p')
  {
    hide Named;
  }

  lemma FocusIds(p: Panes, id: LeafId)
    ensures SameIdTable(p, UpdateFocus(p, id))
  {}

  lemma SplitNewIds(p: Panes, deps: Deps, dir: Direction, launch: Launch, m: HostMaker)
    ensures NewIds(p, SplitPane(p, deps, dir, launch, m).0)
  {
    hide CreateHost;
    hide SplitLeaf;
    hide CloseLeaf;
    hide UpdateFocus;
    hide Completed;
    hide NewIds;
    var (tree, leaf) := SplitLeaf(p.tree, p.tree.focused, dir);
    var q := p.(tree := tree);
    var q' := CreateHost(q, deps, leaf, Completed(launch, deps), false, false, m).0;
    CreateNewIds(q, deps, leaf, Completed(launch, deps), false, false, m);
    FocusIds(q', leaf);
    Framed(p, q, q', SplitPane(p, deps, dir, launch, m).0);
  }

  lemma RestartNewIds(p: Panes, deps: Deps, id: LeafId, m: HostMaker)
    ensures NewIds(p, RestartPane(p, deps, id, m).0)
  {
    hide CreateHost;
    hide NewIds;
    if id != INVALID_LEAF && id in p.hosts && id in p.launches {
      CreateNewIds(p.(hosts := p.hosts - {id}), deps, id, p.launches[id], false, true, m);
    }
    var q := p.(hosts := p.hosts - {id});
    Framed(p, q, RestartPane(p, deps, id, m).0, RestartPane(p, deps, id, m).0);
  }

  lemma CloseNewIds(p: Panes, deps: Deps, id: LeafId)
    ensures NewIds(p, ClosePane(p, deps, id).0)
  {
    hide CloseLeaf;
    Framed(p, p, p, p);
    FewerIds(p, p, ClosePane(p, deps, id).0, id);
    hide NewIds;
  }

  lemma SplitOffNewIds(p: Panes, deps: Deps, owner: LeafId, ratio: real, path: string, m: HostMaker)
    ensures NewIds(p, SplitOffPreview(p, deps, owner, ratio, path, m).0)
  {
    hide SplitPane;
    hide SetParentRatio;
    hide SetFocused;
    hide UpdateFocus;
    hide NewIds;
    hide PreviewLaunch;
    var q := p.(tree := SetFocused(p.tree, owner));
    var launch := PreviewLaunch(path, if owner in p.paneIds then p.paneIds[owner] else "");
    var (q', leaf) := SplitPane(q, deps, Horizontal, launch, m);
    SplitNewIds(q, deps, Horizontal, launch, m);
    FocusIds(q', if p.tree.focused == INVALID_LEAF then owner else p.tree.focused);
    FocusIds(q'.(tree := SetParentRatio(q'.tree, leaf, ratio), previewLeaf := leaf, previewOwner := owner), owner);
    Framed(p, q, q', SplitOffPreview(p, deps, owner, ratio, path, m).0);
  }

  lemma ShowNewIds(p: Panes, deps: Deps, owner: LeafId, ratio: real, path: string, m: HostMaker)
    ensures NewIds(p, ShowPreview(p, deps, owner, ratio, path, m).0)
  {
    hide SplitOffPreview;
    hide NewIds;
    var q := PreviewChecked(p);
    SplitOffNewIds(q, deps, owner, ratio, path, m);
    var r := ShowPreview(p, deps, owner, ratio, path, m).0;
    Framed(p, q, SplitOffPreview(q, deps, owner, ratio, path, m).0, r);
  }

  lemma HideNewIds(p: Panes, deps: Deps)
    ensures NewIds(p, HidePreview(p, deps))
  {
    hide ClosePane;
    hide UpdateFocus;
    hide NewIds;
    var q := p.(previewLeaf := INVALID_LEAF, previewOwner := INVALID_LEAF);
    CloseNewIds(q, deps, p.previewLeaf);
    FocusIds(ClosePane(q, deps, p.previewLeaf).0, p.previewOwner);
    Framed(p, q, ClosePane(q, deps, p.previewLeaf).0, HidePreview(p, deps));
  }

  lemma SwapIds(p: Panes, deps: Deps)
    ensures SameIdTable(p, SwapWithNext(p, deps).0)
  {}

  lemma AgentIds(p: Panes, id: LeafId, agent: AgentIdentity, policy: RestorePolicy)
    ensures SameIdTable(p, SetAgent(p, id, agent, policy))
  {}

  lemma SessionIds(p: Panes, id: LeafId, session: SessionRef, valid: bool)
    ensures SameIdTable(p, SetSession(p, id, session, valid).0)
  {}

  lemma ZoomIds(p: Panes)
    ensures SameIdTable(p, ToggleZoom(p))
  {}

  /// No local operation hands out an identity made of a serial issued before.
  lemma StepNewIds(deps: Deps, p: Panes, op: Op, q: Panes)
    requires Step(deps, p, op, q) && !op.DoReconcile?
    ensures NewIds(p, q)
  {
    hide SplitPane;
    hide ShowPreview;
    hide HidePreview;
    hide ClosePane;
    hide RestartPane;
    hide SwapWithNext;
    hide ToggleZoom;
    hide UpdateFocus;
    hide SetAgent;
    hide SetSession;
    hide NewIds;
    hide Reconciled;
    match op
    case DoSplit(dir, launch, m) => SplitNewIds(p, deps, dir, launch, m);
    case DoClose(id) => CloseNewIds(p, deps, id);
    case DoRestart(id, m) => RestartNewIds(p, deps, id, m);
    case DoSwap => SwapIds(p, deps); Framed(p, p, q, q);
    case DoFocus(id) => FocusIds(p, id); Framed(p, p, q, q);
    case DoShowPreview(owner, ratio, path, m) => ShowNewIds(p, deps, owner, ratio, path, m);
    case DoHidePreview => HideNewIds(p, deps);
    case DoToggleZoom => ZoomIds(p); Framed(p, p, q, q);
    case DoSetAgent(id, agent, policy) => AgentIds(p, id, agent, policy); Framed(p, p, q, q);
    case DoSetSession(id, session, valid) => SessionIds(p, id, session, valid); Framed(p, p, q, q);
    case _ => Framed(p, p, q, q);
  }

  // ---------------------------------------------------------------------------
  // Over runs

  /// No two panes have the same identity, and the counter is above every serial in use.
  ghost predicate IdsKnown(p: Panes) {
    && Injective(p.paneIds)
    && forall id :: id in p.paneIds && ParsePaneName(p.paneIds[id]).Some? ==>
         ParsePaneName(p.paneIds[id]).value < p.nextSerial
  }

  lemma NewIdsKnown(p: Panes, q: Panes)
    requires IdsKnown(p) && NewIds(p, q)
    ensures IdsKnown(q)
  {
    hide ParsePaneName;
    hide PaneName;
    forall id | id in q.paneIds && ParsePaneName(q.paneIds[id]).Some?
      ensures ParsePaneName(q.paneIds[id]).value < q.nextSerial
    {
      if Named(q.paneIds[id], p.nextSerial, q.nextSerial) {
        var n :| p.nextSerial <= n < q.nextSerial && q.paneIds[id] == PaneName(n);
        PaneNameRoundTrip(n);
      } else {
        assert Lookup(p.paneIds, id) == Some(q.paneIds[id]);
      }
    }
  }

  lemma SavedAt(saved: LayoutSnapshot, id: LeafId) returns (i: nat)
    requires LeavesOf(saved.panes) == TreeLeaves(saved.tree) && id in LeafSet(saved.tree)
    ensures i < |saved.panes| && saved.panes[i].leaf == id
  {
    InElements(TreeLeaves(saved.tree));
    i := IndexOf(TreeLeaves(saved.tree), id);
    assert LeavesOf(saved.panes)[i] == id;
  }

  /// A restored tab starts that way.
  lemma RestoredKnown(p: Panes, deps: Deps, saved: LayoutSnapshot, factory: LeafId -> HostMaker)
    requires WellSaved(saved) && AllStart(deps, saved.panes, factory)
    ensures IdsKnown(RestoreLayout(p, deps, saved, factory).0)
  {
    hide RestoreLayout;
    hide StartsAs;
    hide RuntimeLaunch;
    hide ParsePaneName;
    hide Completed;
    hide Strays;
    hide ZoomShown;
    hide WellFormed;
    hide Injective;
    hide PreviewOn;
    RestoreLayoutLaw(p, deps, saved, factory);
    RestoreRaisesSerials(p, deps, saved, factory);
    var q := RestoreLayout(p, deps, saved, factory).0;
    forall id | id in q.paneIds && ParsePaneName(q.paneIds[id]).Some?
      ensures ParsePaneName(q.paneIds[id]).value < q.nextSerial
    {
      var i := SavedAt(saved, id);
      assert HostOf(deps, saved.panes, i, factory).Some?;
      assert PaneRestored(q, p, deps, saved.panes[i], HostOf(deps, saved.panes, i, factory).value);
    }
  }

  /// Identities are those of leaves of the restored tree.
  lemma RestoredOnLeaves(p: Panes, deps: Deps, saved: LayoutSnapshot, factory: LeafId -> HostMaker)
    requires RestoreLayout(p, deps, saved, factory).1 && Distinct(TreeLeaves(saved.tree))
    ensures var q := RestoreLayout(p, deps, saved, factory).0;
            WellFormed(q.tree) && q.paneIds.Keys <= LeafSet(q.tree)
  {
    RestoreLaw(saved.tree);
    hide Restore;
    hide RestorePanes;
    var tree := Restore(saved.tree).value;
    RestoredIdsOnLeaves(Shutdown(p).(tree := tree), deps, saved.panes, |saved.panes|, factory);
    var q := RestorePanes(Shutdown(p).(tree := tree), deps, saved.panes, |saved.panes|, factory).0;
    ZoomTree(q, saved);
    hide RestoreZoom;
    hide WellFormed;
  }

  lemma ZoomTree(q: Panes, saved: LayoutSnapshot)
    requires WellFormed(q.tree)
    ensures var r := RestoreZoom(q, saved);
            r.paneIds == q.paneIds && WellFormed(r.tree) && LeafSet(r.tree) == LeafSet(q.tree)
  {
    SetFocusedLaw(q.tree, saved.zoomedLeaf);
    hide SetFocused;
    hide WellFormed;
  }

  lemma {:induction false} RestoredIdsOnLeaves(p: Panes, deps: Deps, panes: seq<PaneSnapshot>, k: nat,
                                               factory: LeafId -> HostMaker)
    requires k <= |panes| && p.paneIds == map[] && RestorePanes(p, deps, panes, k, factory).1
    ensures var q := RestorePanes(p, deps, panes, k, factory).0;
            q.tree == p.tree && q.paneIds.Keys <= LeafSet(q.tree)
  {
    hide RestorePane;
    if k > 0 {
      RestoredIdsOnLeaves(p, deps, panes, k - 1, factory);
      var q := RestorePanes(p, deps, panes, k - 1, factory).0;
      var pane, primary, m := panes[k - 1], k - 1 == 0, factory(panes[k - 1].leaf);
      RestoredSerial(q, deps, pane, primary, m);
      RestorePaneFrame(q, deps, pane, primary, m);
      RestorePaneForm(q, deps, pane, primary, m);
      InElements(TreeLeaves(q.tree));
    }
  }

  /// The first pane split off after a restore has an identity that no saved pane has,
  /// made of a serial above all of theirs.
  lemma SplitAfterRestore(p: Panes, deps: Deps, saved: LayoutSnapshot, factory: LeafId -> HostMaker,
                          dir: Direction, launch: Launch, m: HostMaker) returns (serial: nat)
    requires RestoreLayout(p, deps, saved, factory).1
    requires SplitPane(RestoreLayout(p, deps, saved, factory).0, deps, dir, launch, m).1 != INVALID_LEAF
    requires Distinct(TreeLeaves(saved.tree))
    ensures var (q, leaf) := SplitPane(RestoreLayout(p, deps, saved, factory).0, deps, dir, launch, m);
            leaf in q.paneIds && q.paneIds[leaf] == PaneName(serial)
    ensures forall i :: 0 <= i < |saved.panes| && ParsePaneName(saved.panes[i].paneId).Some? ==>
              ParsePaneName(saved.panes[i].paneId).value < serial
  {
    hide RestoreLayout;
    hide SplitPane;
    hide ParsePaneName;
    hide PaneName;
    var p1 := RestoreLayout(p, deps, saved, factory).0;
    RestoreRaisesSerials(p, deps, saved, factory);
    SplitNewIds(p1, deps, dir, launch, m);
    var (q, leaf) := SplitPane(p1, deps, dir, launch, m);
    SplitNames(p1, deps, dir, launch, m);
    RestoredOnLeaves(p, deps, saved, factory);
    SplitLeafLaw(p1.tree, p1.tree.focused, dir);
    hide SplitLeaf;
    hide LeafSet;
    hide WellFormed;
    assert Named(q.paneIds[leaf], p1.nextSerial, q.nextSerial);
    serial :| p1.nextSerial <= serial < q.nextSerial && q.paneIds[leaf] == PaneName(serial);
  }

  lemma SplitNames(p: Panes, deps: Deps, dir: Direction, launch: Launch, m: HostMaker)
    ensures var (q, leaf) := SplitPane(p, deps, dir, launch, m);
            leaf != INVALID_LEAF ==> leaf in q.paneIds && leaf == SplitLeaf(p.tree, p.tree.focused, dir).1
  {
    hide SplitLeaf;
    hide CloseLeaf;
    hide StartsAs;
    hide Completed;
    hide FreshSerial;
    hide SetFocused;
  }

  lemma {:induction false} RunKnows(deps: Deps, states: seq<Panes>, ops: seq<Op>, k: nat)
    requires Run(deps, states, ops) && k <= |ops| && IdsKnown(states[0])
    requires forall i :: 0 <= i < |ops| ==> !ops[i].DoReconcile?
    ensures IdsKnown(states[k])
  {
    hide Step;
    hide IdsKnown;
    if k > 0 {
      RunKnows(deps, states, ops, k - 1);
      StepNewIds(deps, states[k - 1], ops[k - 1], states[k]);
      NewIdsKnown(states[k - 1], states[k]);
    }
  }

  lemma {:induction false} SerialsGrow(deps: Deps, states: seq<Panes>, ops: seq<Op>, i: nat, j: nat)
    requires Run(deps, states, ops) && i <= j <= |ops|
    requires forall k :: 0 <= k < |ops| ==> !ops[k].DoReconcile?
    ensures states[i].nextSerial <= states[j].nextSerial
    decreases j - i
  {
    hide Step;
    if i < j {
      SerialsGrow(deps, states, ops, i, j - 1);
      StepNewIds(deps, states[j - 1], ops[j - 1], states[j]);
    }
  }

  /// An identity seen at two moments in the life of a local tab belongs to the same
  /// pane at both and all the while between, as long as serials fit 64 bits.
  lemma {:induction false} IdentitiesNeverReused(deps: Deps, states: seq<Panes>, ops: seq<Op>, i: nat, j: nat,
                                                 a: LeafId, b: LeafId)
    requires Run(deps, states, ops) && i <= j <= |ops| && IdsKnown(states[0])
    requires forall k :: 0 <= k < |ops| ==> !ops[k].DoReconcile?
    requires states[j].nextSerial <= SERIAL_LIMIT
    requires a in states[i].paneIds && b in states[j].paneIds && states[i].paneIds[a] == states[j].paneIds[b]
    ensures a == b && forall k :: i <= k <= j ==>
              a in states[k].paneIds && states[k].paneIds[a] == states[i].paneIds[a]
    decreases j - i
  {
    hide Step;
    hide ParsePaneName;
    hide PaneName;
    RunKnows(deps, states, ops, i);
    if i < j {
      StepNewIds(deps, states[j - 1], ops[j - 1], states[j]);
      SerialsGrow(deps, states, ops, i, j - 1);
      if Named(states[j].paneIds[b], states[j - 1].nextSerial, states[j].nextSerial) {
        var n :| states[j - 1].nextSerial <= n < states[j].nextSerial && states[j].paneIds[b] == PaneName(n);
        PaneNameRoundTrip(n);
        assert false;
      }
      assert Lookup(states[j - 1].paneIds, b) == Some(states[j].paneIds[b]);
      IdentitiesNeverReused(deps, states, ops, i, j - 1, a, b);
    }
  }
}
