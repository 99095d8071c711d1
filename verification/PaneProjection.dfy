/** Who holds the focus after a layout of the server is applied to a tab, in front
    or behind, and whatever becomes of it. */
module PaneProjection {
  import opened Identifiers
  import opened SplitTrees
  import opened PaneNames
  import opened PaneModel
  import opened PaneInvariants
  import opened PaneRoundTrip
  import opened PaneReconcile
  import opened PaneApply
  import opened PaneFailure
  import opened TabModel
  import opened PaneFocus
  import opened PaneOrigins

  /// A projected layout, the makers of the hosts it needs and of those it would be
  /// undone with, and what applying it came to.
  datatype Projection = Projection(
    snap: LayoutSnapshot, factory: LeafId -> HostMaker,
    cwd: LeafId -> string, again: LeafId -> HostMaker,
    after: Panes, ok: bool)

  ghost predicate Projected(p: Panes, deps: Deps, x: Projection) {
    && Reconciled(p, deps, x.snap, x.factory, x.cwd, x.again, x.after, x.ok)
    && (Accepts(x.snap) ==> Distinct(TreeLeaves(x.snap.tree)))
    && LeavesApart(x.factory) && LeavesApart(x.again)
  }

  /// The host objects that may have been made for the leaves.
  function ProjectedHosts(x: Projection): set<HostId> {
    set id, h | id in x.after.hosts && h in MakerHosts(x.factory(id)) + MakerHosts(x.again(id)) :: h
  }

  /// The hosts that go when a layout comes.
  function Removed(p: Panes, snap: LayoutSnapshot): set<HostId> {
    set id | id in p.hosts && !Kept(p, snap, id) :: p.hosts[id]
  }

  /// The hosts holding focus after a layout is applied. Hosts that go hold nothing;
  /// a focus that moved is told to both panes; going back tells nobody.
  ghost function ProjectCalls(p: Panes, x: Projection, holders: set<HostId>): set<HostId> {
    if !Accepts(x.snap) then holders
    else
      var left := holders - Removed(p, x.snap);
      var was, now := p.tree.focused, x.after.tree.focused;
      if x.ok then (if was == now then left else left - HostAt(x.after, was) + HostAt(x.after, now))
      else if SnapshotLayout(p, x.cwd).Some? then holders - p.hosts.Values
      else left
  }

  /// In the tab with the focus, nobody is told when the focused pane gets a new host,
  /// when a failure makes every host again, or when one with nothing to go back to
  /// stops with the focus on a pane that has just got its host or away from a pane
  /// that still holds it.
  ghost predicate LosesFocus(p: Panes, deps: Deps, x: Projection) {
    && Accepts(x.snap)
    && var kept := Kept(p, x.snap, p.tree.focused);
       var now := Restore(x.snap.tree).value.focused;
       if x.ok then now == p.tree.focused && !kept
       else
         match SnapshotLayout(p, x.cwd)
         case Some(saved) => AllStart(deps, saved.panes, x.again)
         case None => if kept then now != p.tree.focused else now in x.after.hosts
  }

  /// In any other tab, a focus that moves is told to the new pane, which takes the
  /// keyboard of a tab that is not in front.
  ghost predicate TakesFocus(p: Panes, x: Projection) {
    Accepts(x.snap) && x.ok && Restore(x.snap.tree).value.focused != p.tree.focused
  }

  // ---------------------------------------------------------------------------
  // Which hosts there are

  /// A kept host stays where it is, and any other was made for its leaf.
  ghost predicate HostProjected(p: Panes, snap: LayoutSnapshot, factory: LeafId -> HostMaker, q: Panes, id: LeafId) {
    if Kept(p, snap, id) then id in q.hosts && q.hosts[id] == p.hosts[id]
    else id in q.hosts ==> q.hosts[id] in MakerHosts(factory(id))
  }

  ghost predicate HostsProjected(p: Panes, snap: LayoutSnapshot, factory: LeafId -> HostMaker, q: Panes) {
    forall id :: HostProjected(p, snap, factory, q, id)
  }

  lemma AppliedHosts(p: Panes, deps: Deps, snap: LayoutSnapshot, factory: LeafId -> HostMaker, q: Panes)
    requires Restore(snap.tree).Some? && Applied(p, deps, snap, factory, q)
    ensures HostsProjected(p, snap, factory, q)
  {
    hide Restore;
    hide Applied;
    hide HostProjected;
    forall id ensures HostProjected(p, snap, factory, q, id) {
      AppliedHost(p, deps, snap, factory, q, id);
    }
  }

  lemma AppliedHost(p: Panes, deps: Deps, snap: LayoutSnapshot, factory: LeafId -> HostMaker, q: Panes, id: LeafId)
    requires Restore(snap.tree).Some? && Applied(p, deps, snap, factory, q)
    ensures HostProjected(p, snap, factory, q, id)
  {
    hide Restore;
    hide Injective;
    hide SameHost;
    hide ByLeaf;
    hide StartsAs;
    hide Completed;
    hide KeptLeaves;
    hide IsPreviewOf;
    var wanted := ByLeaf(snap.panes);
    if id in wanted {
      assert LeafApplied(p, deps, snap, factory, q, wanted[id]);
      StartsAsMade(deps, Completed(wanted[id].launch, deps), false, false, factory(id));
    } else {
      assert LeafOutside(p, q, id);
    }
  }

  lemma StuckHosts(p: Panes, deps: Deps, snap: LayoutSnapshot, factory: LeafId -> HostMaker, q: Panes)
    requires Restore(snap.tree).Some? && Stuck(p, deps, snap, factory, q)
    ensures HostsProjected(p, snap, factory, q)
  {
    hide Restore;
    hide ApplyLeaf;
    hide Progress;
    hide ByLeaf;
    hide HostProjected;
    var r, done, id, primary :| StuckAt(p, deps, snap, factory, r, done, id, primary, q);
    hide Stuck;
    FailedTurn(r, deps, ByLeaf(snap.panes)[id], primary, factory(id));
    forall x ensures HostProjected(p, snap, factory, q, x) {
      TurnHost(p, deps, snap, factory, r, done, x);
      SameHosts(p, snap, factory, r, q, x);
    }
  }

  lemma SameHosts(p: Panes, snap: LayoutSnapshot, factory: LeafId -> HostMaker, r: Panes, q: Panes, id: LeafId)
    requires HostProjected(p, snap, factory, r, id) && q.hosts == r.hosts
    ensures HostProjected(p, snap, factory, q, id)
  {}

  lemma TurnHost(p: Panes, deps: Deps, snap: LayoutSnapshot, factory: LeafId -> HostMaker, r: Panes,
                 done: set<LeafId>, id: LeafId)
    requires Restore(snap.tree).Some? && Progress(p, deps, snap, factory, r, done)
    ensures HostProjected(p, snap, factory, r, id)
  {
    hide Restore;
    hide Counted;
    hide Frame;
    hide SameHost;
    hide ByLeaf;
    hide StartsAs;
    hide Completed;
    hide Sourced;
    if id in done {
      var wanted := ByLeaf(snap.panes)[id];
      assert LeafApplied(p, deps, snap, factory, r, wanted);
      StartsAsMade(deps, Completed(wanted.launch, deps), false, false, factory(id));
    } else {
      assert LeafPending(p, snap, r, id);
    }
  }

  lemma ProjectedApart(p: Panes, snap: LayoutSnapshot, factory: LeafId -> HostMaker, q: Panes, made: set<HostId>)
    requires Injective(p.hosts) && HostsProjected(p, snap, factory, q) && LeavesApart(factory) && made !! p.hosts.Values
    requires forall id :: id in q.hosts ==> MakerHosts(factory(id)) <= made
    ensures Injective(q.hosts) && q.hosts.Values <= p.hosts.Values + made
  {
    hide SameHost;
    hide ByLeaf;
    forall a | a in q.hosts ensures q.hosts[a] in p.hosts.Values + made {
      assert HostProjected(p, snap, factory, q, a);
    }
    forall a, b | a in q.hosts && b in q.hosts && a != b ensures q.hosts[a] != q.hosts[b] {
      assert HostProjected(p, snap, factory, q, a) && HostProjected(p, snap, factory, q, b);
      assert MakerHosts(factory(a)) !! MakerHosts(factory(b));
      assert Kept(p, snap, a) ==> q.hosts[a] in p.hosts.Values;
      assert Kept(p, snap, b) ==> q.hosts[b] in p.hosts.Values;
    }
  }

  lemma MakersCovered(x: Projection)
    ensures forall id :: id in x.after.hosts ==>
              MakerHosts(x.factory(id)) <= ProjectedHosts(x) && MakerHosts(x.again(id)) <= ProjectedHosts(x)
  {
    hide MakerHosts;
    forall id | id in x.after.hosts
      ensures MakerHosts(x.factory(id)) <= ProjectedHosts(x) && MakerHosts(x.again(id)) <= ProjectedHosts(x)
    {
      forall h | h in MakerHosts(x.factory(id)) + MakerHosts(x.again(id)) ensures h in ProjectedHosts(x) {}
    }
  }

  lemma ValuesCovered(x: Projection)
    requires forall id :: id in x.after.hosts ==> x.after.hosts[id] in MakerHosts(x.again(id))
    ensures x.after.hosts.Values <= ProjectedHosts(x)
  {
    MakersCovered(x);
    hide ProjectedHosts;
    hide MakerHosts;
    forall id | id in x.after.hosts ensures x.after.hosts[id] in ProjectedHosts(x) {
      assert MakerHosts(x.again(id)) <= ProjectedHosts(x);
    }
  }

  /// A layout that is put back has made every host again, or has none left.
  lemma PutBackHosts(p: Panes, deps: Deps, x: Projection, saved: LayoutSnapshot)
    requires Sound(p) && SnapshotLayout(p, x.cwd) == Some(saved) && LeavesApart(x.again) && Restore(x.snap.tree).Some?
    requires x.after == RestoreLayout(Stripped(p, x.snap), deps, saved, x.again).0
    ensures Injective(x.after.hosts) && x.after.hosts.Values <= ProjectedHosts(x)
    ensures FocusedHost(x.after) != {} <==> AllStart(deps, saved.panes, x.again)
  {
    SavedWhenHoused(p, x.cwd);
    SnapshotIsWellSaved(p, x.cwd);
    hide *;
    if AllStart(deps, saved.panes, x.again) {
      PutBackWhole(Stripped(p, x.snap), deps, saved, x.again);
      ValuesCovered(x);
      ShowsFocus(x.after);
    } else {
      PutBackEmpty(Stripped(p, x.snap), deps, saved, x.again);
      ValuesCovered(x);
      NoHosts(x.after);
    }
  }

  lemma PutBackWhole(p: Panes, deps: Deps, saved: LayoutSnapshot, again: LeafId -> HostMaker)
    requires WellSaved(saved) && LeavesApart(again) && AllStart(deps, saved.panes, again)
    ensures var q := RestoreLayout(p, deps, saved, again).0;
            && Injective(q.hosts) && q.tree.focused in q.hosts
            && forall id :: id in q.hosts ==> q.hosts[id] in MakerHosts(again(id))
  {
    SavedIsChecked(saved);
    hide WellSaved;
    hide Checked;
    hide AllStart;
    hide LeavesApart;
    hide RestoreLayout;
    hide Housed;
    hide MakerHosts;
    RestoreLayoutLaw(p, deps, saved, again);
    RestoredHosts(p, deps, saved, again);
    HousedFocus(RestoreLayout(p, deps, saved, again).0);
    hide Injective;
  }

  lemma PutBackEmpty(p: Panes, deps: Deps, saved: LayoutSnapshot, again: LeafId -> HostMaker)
    requires WellSaved(saved) && !AllStart(deps, saved.panes, again)
    ensures RestoreLayout(p, deps, saved, again).0.hosts == map[]
  {
    hide WellSaved;
    hide AllStart;
    hide RestoreLayout;
    RestoreFails(p, deps, saved, again);
  }

  lemma ShowsFocus(q: Panes)
    requires q.tree.focused in q.hosts
    ensures FocusedHost(q) != {}
  {}

  lemma NoHosts(q: Panes)
    requires q.hosts == map[]
    ensures FocusedHost(q) == {} && Injective(q.hosts)
  {}

  lemma HousedFocus(q: Panes)
    requires Housed(q)
    ensures q.tree.focused in q.hosts
  {
    hide Injective;
    hide Backed;
    assert q.tree.focused in q.hosts.Keys;
  }

  /// Applied or not, a projected layout leaves sound panes with hosts of their own.
  lemma ProjectionKeepsOwn(p: Panes, deps: Deps, x: Projection)
    requires Own(p) && Projected(p, deps, x) && ProjectedHosts(x) !! p.hosts.Values
    ensures Own(x.after) && x.after.hosts.Values <= p.hosts.Values + ProjectedHosts(x)
  {
    hide Sound;
    hide Accepts;
    hide Restore;
    hide SomeHostFails;
    hide SnapshotLayout;
    hide RestoreLayout;
    hide Applied;
    hide Stuck;
    hide LeavesApart;
    hide HostsProjected;
    hide Injective;
    hide Stripped;
    hide Housed;
    hide Consistent;
    hide ZoomShown;
    hide Strays;
    hide AllStart;
    hide LeafSet;
    hide ProjectedHosts;
    hide MakerHosts;
    ReconciledLaw(p, deps, x.snap, x.factory, x.cwd, x.again, x.after, x.ok);
    if Accepts(x.snap) {
      AcceptedRestores(x.snap);
      if x.ok {
        AppliedHosts(p, deps, x.snap, x.factory, x.after);
        MakersCovered(x);
        ProjectedApart(p, x.snap, x.factory, x.after, ProjectedHosts(x));
      } else {
        match SnapshotLayout(p, x.cwd)
        case Some(saved) => PutBackHosts(p, deps, x, saved);
        case None =>
          StuckHosts(p, deps, x.snap, x.factory, x.after);
          MakersCovered(x);
          ProjectedApart(p, x.snap, x.factory, x.after, ProjectedHosts(x));
      }
    }
  }

  // ---------------------------------------------------------------------------
  // Who is told

  /// The focused host of entry still holds the focus exactly when it was kept.
  lemma HeldUnlessRemoved(p: Panes, snap: LayoutSnapshot, holders: set<HostId>)
    requires InFocus(p, holders)
    ensures holders - Removed(p, snap) ==
              holders - p.hosts.Values + (if Kept(p, snap, p.tree.focused) then FocusedHost(p) else {})
  {
    FocusedHostLaw(p);
    hide Sound;
    hide SameHost;
    hide ByLeaf;
    var kept := if Kept(p, snap, p.tree.focused) then FocusedHost(p) else {};
    forall h | h in holders && h in p.hosts.Values ensures h in Removed(p, snap) <==> h !in kept {
      assert h in holders * p.hosts.Values;
      assert p.tree.focused in p.hosts && h == p.hosts[p.tree.focused];
    }
    forall h | h in Removed(p, snap) ensures h in p.hosts.Values {}
  }

  lemma AddsApart(others: set<HostId>, a: set<HostId>, b: set<HostId>)
    requires others !! a && others !! b
    ensures others + a == others + b <==> a == b
  {
    assert a == (others + a) - others && b == (others + b) - others;
  }

  /// Telling the old pane and the new one is right unless the focus stays on a leaf
  /// that did not keep its host.
  lemma TellsBoth(others: set<HostId>, held: set<HostId>, was: set<HostId>, now: set<HostId>, moved: bool, kept: bool)
    requires others !! held && others !! was && others !! now && now != {}
    requires if kept then was == held else held == {}
    requires !moved ==> was == now
    ensures (if moved then others + held - was + now else others + held) == others + now <==> moved || kept
  {
    if moved {
      assert others + held - was == others;
    } else {
      AddsApart(others, held, now);
    }
  }

  /// The hosts after a layout was applied were the tab's, or held nothing.
  lemma OthersApart(p: Panes, deps: Deps, x: Projection, holders: set<HostId>, id: LeafId)
    requires Own(p) && Projected(p, deps, x) && ProjectedHosts(x) !! holders + p.hosts.Values
    ensures Own(x.after) && holders - p.hosts.Values !! HostAt(x.after, id)
  {
    hide Sound;
    hide Injective;
    hide Projected;
    hide ProjectedHosts;
    ProjectionKeepsOwn(p, deps, x);
    assert HostAt(x.after, id) <= x.after.hosts.Values;
  }

  lemma AppliedCalls(p: Panes, deps: Deps, x: Projection, holders: set<HostId>)
    requires InFocus(p, holders) && Projected(p, deps, x) && Accepts(x.snap) && x.ok
    requires ProjectedHosts(x) !! holders + p.hosts.Values
    ensures PanesHandOver(p, holders, x.after, ProjectCalls(p, x, holders)) <==>
              !(x.after.tree.focused == p.tree.focused && !Kept(p, x.snap, p.tree.focused))
  {
    var was, now := p.tree.focused, x.after.tree.focused;
    var kept := Kept(p, x.snap, was);
    var held := if kept then FocusedHost(p) else {};
    HeldUnlessRemoved(p, x.snap, holders);
    KeptFocus(p, deps, x);
    FocusedHostLaw(p);
    FocusedHostLaw(x.after);
    OthersApart(p, deps, x, holders, was);
    OthersApart(p, deps, x, holders, now);
    hide Accepts;
    hide Projected;
    hide Own;
    hide ProjectedHosts;
    hide Removed;
    hide Kept;
    hide HostAt;
    hide FocusedHost;
    TellsBoth(holders - p.hosts.Values, held, HostAt(x.after, was), HostAt(x.after, now), was != now, kept);
  }

  lemma KeptFocus(p: Panes, deps: Deps, x: Projection)
    requires Own(p) && Projected(p, deps, x) && Accepts(x.snap) && x.ok
    ensures Kept(p, x.snap, p.tree.focused) ==> HostAt(x.after, p.tree.focused) == FocusedHost(p)
    ensures FocusedHost(x.after) != {}
  {
    hide Own;
    hide Projected;
    hide Accepts;
    AppliedFocus(p, deps, x);
    KeptHost(p, x.snap, x.factory, x.after);
    hide Kept;
    hide HostProjected;
  }

  lemma KeptHost(p: Panes, snap: LayoutSnapshot, factory: LeafId -> HostMaker, q: Panes)
    requires HostProjected(p, snap, factory, q, p.tree.focused)
    ensures Kept(p, snap, p.tree.focused) ==> HostAt(q, p.tree.focused) == FocusedHost(p) != {}
  {
    hide SameHost;
    hide ByLeaf;
  }

  lemma AppliedFocus(p: Panes, deps: Deps, x: Projection)
    requires Own(p) && Projected(p, deps, x) && Accepts(x.snap) && x.ok
    ensures HostProjected(p, x.snap, x.factory, x.after, p.tree.focused)
    ensures x.after.tree.focused in x.after.hosts
  {
    ReconciledLaw(p, deps, x.snap, x.factory, x.cwd, x.again, x.after, x.ok);
    AcceptedRestores(x.snap);
    hide *;
    AppliedHosts(p, deps, x.snap, x.factory, x.after);
    HousedFocus(x.after);
  }

  /// Nobody is told when a layout that cannot be undone stops half-way.
  lemma StuckCalls(p: Panes, deps: Deps, x: Projection, holders: set<HostId>)
    requires InFocus(p, holders) && Projected(p, deps, x) && Accepts(x.snap) && !x.ok && SnapshotLayout(p, x.cwd).None?
    requires ProjectedHosts(x) !! holders + p.hosts.Values
    ensures PanesHandOver(p, holders, x.after, ProjectCalls(p, x, holders)) <==> !LosesFocus(p, deps, x)
  {
    var now := x.after.tree.focused;
    var kept := Kept(p, x.snap, p.tree.focused);
    var held := if kept then FocusedHost(p) else {};
    hide ProjectedHosts;
    hide Removed;
    hide Kept;
    hide Accepts;
    hide Restore;
    hide SnapshotLayout;
    hide Own;
    hide Projected;
    HeldUnlessRemoved(p, x.snap, holders);
    StuckFocus(p, deps, x);
    OthersApart(p, deps, x, holders, now);
    FocusedHostLaw(p);
    FocusedHostLaw(x.after);
    hide FocusedHost;
    hide HostAt;
    AddsApart(holders - p.hosts.Values, held, FocusedHost(x.after));
  }

  /// Where the focus is then: on a pane that still has the host of entry, on one
  /// that has just got its own, or on one without any.
  lemma StuckFocus(p: Panes, deps: Deps, x: Projection)
    requires Own(p) && Projected(p, deps, x) && Accepts(x.snap) && !x.ok && SnapshotLayout(p, x.cwd).None?
    requires ProjectedHosts(x) !! p.hosts.Values
    ensures Restore(x.snap.tree).Some? && x.after.tree.focused == Restore(x.snap.tree).value.focused
    ensures Kept(p, x.snap, p.tree.focused) ==>
              (FocusedHost(x.after) == FocusedHost(p) <==> x.after.tree.focused == p.tree.focused)
    ensures FocusedHost(x.after) == {} <==> x.after.tree.focused !in x.after.hosts
  {
    hide *;
    ProjectedStuck(p, deps, x);
    StuckTree(p, deps, x.snap, x.factory, x.after);
    StuckHosts(p, deps, x.snap, x.factory, x.after);
    HostAtFocus(p, x.snap, x.factory, x.after);
    ProjectionKeepsOwn(p, deps, x);
    OwnApart(x.after, p.tree.focused);
  }

  lemma ProjectedStuck(p: Panes, deps: Deps, x: Projection)
    requires Projected(p, deps, x) && Accepts(x.snap) && !x.ok && SnapshotLayout(p, x.cwd).None?
    ensures Restore(x.snap.tree).Some? && Stuck(p, deps, x.snap, x.factory, x.after)
  {
    AcceptedRestores(x.snap);
    hide Accepts;
    hide Restore;
    hide SnapshotLayout;
    hide Stuck;
  }

  lemma HostAtFocus(p: Panes, snap: LayoutSnapshot, factory: LeafId -> HostMaker, q: Panes)
    requires HostsProjected(p, snap, factory, q)
    ensures Kept(p, snap, p.tree.focused) ==> HostAt(q, p.tree.focused) == FocusedHost(p) != {}
  {
    hide Kept;
    hide HostProjected;
    assert HostProjected(p, snap, factory, q, p.tree.focused);
    KeptHost(p, snap, factory, q);
  }

  lemma OwnApart(q: Panes, id: LeafId)
    requires Own(q)
    ensures HostAt(q, id) != {} ==> (FocusedHost(q) == HostAt(q, id) <==> q.tree.focused == id)
    ensures FocusedHost(q) == {} <==> q.tree.focused !in q.hosts
  {
    hide Sound;
    if q.tree.focused in q.hosts && id in q.hosts && q.tree.focused != id {
      HostsDiffer(q, q.tree.focused, id);
    }
    hide Injective;
  }

  lemma StuckTree(p: Panes, deps: Deps, snap: LayoutSnapshot, factory: LeafId -> HostMaker, q: Panes)
    requires Restore(snap.tree).Some? && Stuck(p, deps, snap, factory, q)
    ensures q.tree == Restore(snap.tree).value
  {
    var r, done, id, primary :| StuckAt(p, deps, snap, factory, r, done, id, primary, q);
    hide Restore;
    hide Stuck;
    StuckFrame(p, deps, snap, factory, r, done, id, primary, q);
    hide StuckAt;
  }

  lemma PutBackCalls(p: Panes, deps: Deps, x: Projection, holders: set<HostId>)
    requires InFocus(p, holders) && Projected(p, deps, x) && Accepts(x.snap) && !x.ok && SnapshotLayout(p, x.cwd).Some?
    requires ProjectedHosts(x) !! holders + p.hosts.Values
    ensures PanesHandOver(p, holders, x.after, ProjectCalls(p, x, holders)) <==> !LosesFocus(p, deps, x)
  {
    hide Accepts;
    hide Restore;
    hide SnapshotLayout;
    hide RestoreLayout;
    hide Stripped;
    hide Removed;
    hide Kept;
    hide Applied;
    hide Stuck;
    hide SomeHostFails;
    hide AllStart;
    hide ProjectedHosts;
    hide Sound;
    hide Injective;
    hide LeavesApart;
    AcceptedRestores(x.snap);
    PutBackHosts(p, deps, x, SnapshotLayout(p, x.cwd).value);
    OthersApart(p, deps, x, holders, x.after.tree.focused);
    FocusedHostLaw(x.after);
    hide Projected;
    hide Own;
    hide FocusedHost;
    AddsApart(holders - p.hosts.Values, {}, FocusedHost(x.after));
  }

  /// In the tab that has the focus, applying a layout hands it over to the pane that
  /// is focused then, unless it loses it.
  lemma ProjectionHandsOver(p: Panes, deps: Deps, x: Projection, holders: set<HostId>)
    requires InFocus(p, holders) && Projected(p, deps, x) && ProjectedHosts(x) !! holders + p.hosts.Values
    ensures PanesHandOver(p, holders, x.after, ProjectCalls(p, x, holders)) <==> !LosesFocus(p, deps, x)
  {
    if !Accepts(x.snap) {
      FocusedHostLaw(p);
      SomeHold(holders, p.hosts.Values, FocusedHost(p));
    } else {
      AcceptedRestores(x.snap);
      hide Own;
      hide Accepts;
      hide SnapshotLayout;
      if x.ok {
        AppliedTree(p, deps, x);
        AppliedCalls(p, deps, x, holders);
      } else if SnapshotLayout(p, x.cwd).Some? {
        PutBackCalls(p, deps, x, holders);
      } else {
        StuckCalls(p, deps, x, holders);
      }
    }
  }

  lemma AppliedTree(p: Panes, deps: Deps, x: Projection)
    requires Projected(p, deps, x) && Accepts(x.snap) && x.ok
    ensures Restore(x.snap.tree).Some? && x.after.tree == Restore(x.snap.tree).value
  {
    AcceptedRestores(x.snap);
    hide Accepts;
    hide Restore;
  }

  /// In a tab that is not in front, where no host holds the focus, applying a layout
  /// leaves it so unless the focus of the tab moves.
  lemma ProjectionAside(p: Panes, deps: Deps, x: Projection, holders: set<HostId>)
    requires Own(p) && Projected(p, deps, x) && holders !! p.hosts.Values
    requires ProjectedHosts(x) !! holders + p.hosts.Values
    ensures ProjectCalls(p, x, holders) == holders <==> !TakesFocus(p, x)
  {
    hide Own;
    hide Accepts;
    hide Restore;
    hide SnapshotLayout;
    hide ProjectedHosts;
    NoneRemoved(p, x.snap, holders);
    if Accepts(x.snap) && x.ok {
      AppliedTree(p, deps, x);
      AppliedFocus(p, deps, x);
      OthersApart(p, deps, x, holders, p.tree.focused);
      OthersApart(p, deps, x, holders, x.after.tree.focused);
      hide Projected;
      hide Removed;
      assert HostAt(x.after, x.after.tree.focused) != {};
    }
  }

  lemma NoneRemoved(p: Panes, snap: LayoutSnapshot, holders: set<HostId>)
    requires holders !! p.hosts.Values
    ensures holders - Removed(p, snap) == holders && holders - p.hosts.Values == holders
  {
    hide Kept;
    forall h | h in Removed(p, snap) ensures h in p.hosts.Values {}
  }

  // ---------------------------------------------------------------------------
  // Where it goes wrong

  /// The only pane of a tab is replaced by another one of the server.
  lemma ReplacedPane(deps: Deps, p: Panes, launch: Launch, factory: LeafId -> HostMaker)
    returns (snap: LayoutSnapshot, q: Panes)
    requires Sound(p) && launch.kind != Markdown
    requires factory(1).provider.Some? && factory(1).initializes && factory(1).placeholderInitializes
    ensures Accepts(snap) && Distinct(TreeLeaves(snap.tree)) && Restore(snap.tree).Some?
    ensures Restore(snap.tree).value.focused == 1 && Applied(p, deps, snap, factory, q)
  {
    hide Sound;
    hide Backed;
    hide Accepts;
    hide Restore;
    hide Followers;
    hide Applied;
    hide Progress;
    hide LeafSet;
    snap := OnePaneLayout(launch);
    AcceptedRestores(snap);
    NoRepeatedLeaves(snap);
    var r, pane := Followers(p, snap), snap.panes[0];
    SoundIsBacked(p);
    ProgressStart(p, deps, snap, factory);
    ProgressStep(p, deps, snap, factory, r, {}, 1, true);
    StartsOrKept(r, deps, pane, factory(1));
    q := ApplyLeaf(r, deps, pane, true, factory(1)).0;
    hide ApplyLeaf;
    OnlyPane(snap);
    assert {} + {1} == ByLeaf(snap.panes).Keys;
    ProgressPreview(p, deps, snap, factory, q);
    hide Progress;
    ProgressDone(p, deps, snap, factory, q, q);
  }

  lemma StartsOrKept(r: Panes, deps: Deps, pane: PaneSnapshot, m: HostMaker)
    requires pane.leaf in r.hosts ==> pane.leaf in r.launches
    requires m.provider.Some? && m.initializes && m.placeholderInitializes && pane.leaf != INVALID_LEAF
    ensures ApplyLeaf(r, deps, pane, true, m).1
  {
    hide FreshSerial;
    hide Completed;
    hide Named;
  }

  lemma OnlyPane(snap: LayoutSnapshot)
    requires |snap.panes| == 1 && snap.panes[0].leaf == 1
    ensures ByLeaf(snap.panes).Keys == {1}
  {
    assert ByLeaf(snap.panes) == map[][1 := snap.panes[0]];
  }

  lemma ProgressPreview(p: Panes, deps: Deps, snap: LayoutSnapshot, factory: LeafId -> HostMaker, q: Panes)
    requires Restore(snap.tree).Some? && Progress(p, deps, snap, factory, q, {1}) && ByLeaf(snap.panes).Keys == {1}
    requires ByLeaf(snap.panes)[1].launch.kind != Markdown
    ensures q.previewLeaf == INVALID_LEAF && q.previewOwner == INVALID_LEAF
            && forall l, o :: !IsPreviewOf(q, snap, l, o)
  {
    hide Restore;
    hide ByLeaf;
    assert forall l :: l in ByLeaf(snap.panes) ==> l in ByLeaf(snap.panes).Keys;
  }

  /// Makers that always make a host, never one that is there already.
  ghost predicate Makes(factory: LeafId -> HostMaker) {
    && LeavesApart(factory)
    && (forall id :: factory(id).provider.Some? && factory(id).initializes && factory(id).placeholderInitializes)
    && (forall id :: MakerHosts(factory(id)) !! {1})
  }

  /// A tab behind another one, whose only pane the server has replaced: its new pane
  /// is told that it has the focus.
  lemma TakesFocusBehind(deps: Deps, launch: Launch, cwd: LeafId -> string, factory: LeafId -> HostMaker)
    returns (p: Panes, x: Projection)
    requires launch.kind != Markdown && Makes(factory)
    ensures Own(p) && Projected(p, deps, x) && ProjectedHosts(x) !! p.hosts.Values
    ensures TakesFocus(p, x) && ProjectCalls(p, x, {}) != {}
  {
    p := OnePane(deps);
    OneLeaf(p);
    var snap, q := ReplacedPane(deps, p, launch, factory);
    x := Projection(snap, factory, cwd, factory, q, true);
    NewHosts(x, p.hosts.Values);
    hide Own;
    hide Accepts;
    hide Applied;
    hide Restore;
    hide SnapshotLayout;
    hide Makes;
    hide LeavesApart;
    hide ProjectedHosts;
    hide ProjectCalls;
    ProjectionAside(p, deps, x, {});
  }

  /// The tab in front, whose only pane the server has replaced by one that cannot
  /// start: the pane that is put back is never told that it has the focus.
  lemma PutBackLosesFocus(deps: Deps, launch: Launch, cwd: LeafId -> string, factory: LeafId -> HostMaker,
                          again: LeafId -> HostMaker)
    returns (p: Panes, x: Projection)
    requires !ProjectsClientHost(launch) && factory(1).provider.None? && LeavesApart(factory) && Makes(again)
    requires forall id :: MakerHosts(factory(id)) !! {1}
    ensures InFocus(p, FocusedHost(p)) && Projected(p, deps, x) && ProjectedHosts(x) !! p.hosts.Values
    ensures LosesFocus(p, deps, x) && FocusedHost(x.after) != {} && ProjectCalls(p, x, FocusedHost(p)) == {}
  {
    p := OnePane(deps);
    OneLeaf(p);
    var snap := OnePaneLayout(launch);
    SavedWhenHoused(p, cwd);
    ConsistentExactly(p);
    NoProviderFails(p, deps, snap, factory);
    var saved := SnapshotLayout(p, cwd).value;
    x := Projection(snap, factory, cwd, again, RestoreLayout(Stripped(p, snap), deps, saved, again).0, false);
    NewHosts(x, p.hosts.Values);
    AlwaysStart(deps, saved.panes, again);
    hide *;
    LoneFocus(p);
    BackLoses(p, deps, x, saved);
  }

  lemma LoneFocus(p: Panes)
    requires Own(p) && FocusedHost(p) == p.hosts.Values
    ensures InFocus(p, FocusedHost(p))
  {
    hide Own;
  }

  /// A layout that is put back makes the focused pane's host again and tells nobody.
  lemma BackLoses(p: Panes, deps: Deps, x: Projection, saved: LayoutSnapshot)
    requires Own(p) && SnapshotLayout(p, x.cwd) == Some(saved) && AllStart(deps, saved.panes, x.again)
    requires Accepts(x.snap) && Distinct(TreeLeaves(x.snap.tree)) && Restore(x.snap.tree).Some? && !x.ok
    requires x.after == RestoreLayout(Stripped(p, x.snap), deps, saved, x.again).0
    requires SomeHostFails(p, deps, x.snap, x.factory) && LeavesApart(x.factory) && LeavesApart(x.again)
    ensures Projected(p, deps, x) && LosesFocus(p, deps, x)
    ensures FocusedHost(x.after) != {} && ProjectCalls(p, x, FocusedHost(p)) == {}
  {
    hide Accepts;
    hide Restore;
    hide SnapshotLayout;
    hide RestoreLayout;
    hide Stripped;
    hide LeavesApart;
    hide SomeHostFails;
    hide AllStart;
    hide Removed;
    hide Kept;
    PutBackHosts(p, deps, x, saved);
    FocusedHostLaw(p);
    hide Own;
  }

  lemma NoProviderFails(p: Panes, deps: Deps, snap: LayoutSnapshot, factory: LeafId -> HostMaker)
    requires 1 in ByLeaf(snap.panes) && 1 !in p.hosts && factory(1).provider.None?
    requires !ProjectsClientHost(ByLeaf(snap.panes)[1].launch)
    ensures SomeHostFails(p, deps, snap, factory)
  {
    hide ByLeaf;
    NoProviderNoHost(deps, Completed(ByLeaf(snap.panes)[1].launch, deps), factory(1));
    assert !Kept(p, snap, 1);
    hide StartsAs;
    assert StartsAs(deps, Completed(ByLeaf(snap.panes)[1].launch, deps), true, false, factory(1)).None?;
  }

  lemma AlwaysStart(deps: Deps, panes: seq<PaneSnapshot>, again: LeafId -> HostMaker)
    requires Makes(again)
    ensures AllStart(deps, panes, again)
  {
    hide RuntimeLaunch;
  }

  lemma NewHosts(x: Projection, there: set<HostId>)
    requires forall id :: MakerHosts(x.factory(id)) !! there
    requires forall id :: MakerHosts(x.again(id)) !! there
    ensures ProjectedHosts(x) !! there
  {
    hide MakerHosts;
  }
}
