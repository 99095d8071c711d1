/** Applying a snapshot of the server is a run of session operations: it adds,
    projects, closes, reorders and activates tabs, and creates, closes, renames and
    enters Spaces. So it leaves the focus where it belongs unless a projection on the
    way is astray. */
module TopologyFocus {
  import opened Identifiers
  import opened PaneModel
  import opened TabModel
  import opened TabLaws
  import opened SpaceModel
  import opened TabProjection
  import opened SessionRuns
  import T = TopologyModel

  // ---------------------------------------------------------------------------
  // Sequences of operations

  ghost predicate Reaches(l: Live, ops: seq<SessionOp>, l': Live)
    decreases |ops|
  {
    if ops == [] then l' == l
    else Possible(l.session, ops[0]) && Reaches(After(l, ops[0]), ops[1..], l')
  }

  /// No operation of the sequence is astray.
  ghost predicate OnCourse(l: Live, ops: seq<SessionOp>)
    decreases |ops|
  {
    ops != [] && Possible(l.session, ops[0]) ==> !Astray(l.session, ops[0]) && OnCourse(After(l, ops[0]), ops[1..])
  }

  lemma {:induction false} Joined(l: Live, a: seq<SessionOp>, m: Live, b: seq<SessionOp>, n: Live)
    requires Reaches(l, a, m) && Reaches(m, b, n)
    ensures Reaches(l, a + b, n)
    decreases |a|
  {
    hide Possible;
    hide After;
    if a == [] {
      assert a + b == b;
    } else {
      Joined(After(l, a[0]), a[1..], m, b, n);
      assert (a + b)[1..] == a[1..] + b;
    }
  }

  lemma OneStep(l: Live, op: SessionOp)
    requires Possible(l.session, op)
    ensures Reaches(l, [op], After(l, op))
  {
    hide Possible;
    hide After;
    assert [op][1..] == [];
    assert Reaches(After(l, op), [], After(l, op));
  }

  lemma {:induction false} CourseKept(l: Live, ops: seq<SessionOp>, l': Live)
    requires Focused(l) && EveryOwn(l.session) && Reaches(l, ops, l')
    ensures EveryOwn(l'.session) && (OnCourse(l, ops) ==> Focused(l'))
    decreases |ops|
  {
    hide Possible;
    hide After;
    hide Focused;
    hide EveryOwn;
    hide Astray;
    if ops != [] {
      StepKeepsFocus(l, ops[0]);
      if Focused(After(l, ops[0])) {
        CourseKept(After(l, ops[0]), ops[1..], l');
      } else {
        OwnKept(After(l, ops[0]), ops[1..], l');
      }
    }
  }

  lemma {:induction false} OwnKept(l: Live, ops: seq<SessionOp>, l': Live)
    requires EveryOwn(l.session) && Reaches(l, ops, l')
    ensures EveryOwn(l'.session)
    decreases |ops|
  {
    hide Possible;
    hide After;
    hide EveryOwn;
    if ops != [] {
      StepKeepsOwn(l, ops[0]);
      OwnKept(After(l, ops[0]), ops[1..], l');
    }
  }

  // ---------------------------------------------------------------------------
  // The tabs of one Space

  /// The tab a remote tab goes to, and the tabs then.
  function Target(p: T.Pass, remote: T.RemoteTab): (Tabs, int) {
    if remote.id in p.tabMap then (p.tabs, p.tabMap[remote.id].1) else T.Adopted(p)
  }

  /// The outcome is that of an arrival in the panes the tab has by then.
  ghost predicate Fits(s: Spaces, i: nat, p: T.Pass, deps: Deps, remote: T.RemoteTab, a: Arrival, o: T.Outcome)
    requires i < |s.spaces|
  {
    var (tabs, id) := Target(p, remote);
    var at := IndexOfTab(tabs.tabs, id);
    at.Some? ==>
      var panes := tabs.tabs[at.value].panes;
      o == OutcomeOf(panes, a) && Arrives(panes, deps, a) && ArrivalHosts(a) !! AllHosts(WithTabs(s, i, tabs))
  }

  lemma Again(s: Spaces, i: nat, a: Tabs, b: Tabs)
    requires i < |s.spaces|
    ensures WithTabs(WithTabs(s, i, a), i, b) == WithTabs(s, i, b) && WithTabs(s, i, s.spaces[i].tabs) == s
    ensures |WithTabs(s, i, a).spaces| == |s.spaces| && WithTabs(s, i, a).spaces[i].tabs == a
  {}

  /// A tab operation in one Space.
  lemma InSpaceStep(l: Live, i: nat, op: TabOp) returns (l': Live)
    requires i < |l.session.spaces| && Applicable(l.session.spaces[i].tabs, op) && !op.OpAdd?
    ensures Reaches(l, [InSpace(i, op)], l')
    ensures l'.session == WithTabs(l.session, i, TabResult(l.session.spaces[i].tabs, op))
  {
    hide AllHosts;
    hide TabResult;
    hide TabFocus;
    OneStep(l, InSpace(i, op));
    l' := After(l, InSpace(i, op));
  }

  lemma NoStep(l: Live)
    ensures Reaches(l, [], l)
  {}

  /// Adopting a tab, or adding one.
  lemma AdoptIsRun(l: Live, i: nat, p: T.Pass, remote: T.RemoteTab) returns (ops: seq<SessionOp>, l': Live)
    requires i < |l.session.spaces| && l.session.spaces[i].tabs == p.tabs
    ensures Reaches(l, ops, l') && l'.session == WithTabs(l.session, i, Target(p, remote).0)
  {
    hide Reaches;
    hide T.FirstUnreserved;
    Again(l.session, i, p.tabs, p.tabs);
    if remote.id !in p.tabMap && T.FirstUnreserved(p.tabs.tabs, p.reserved) < 0 {
      ops := [InSpace(i, OpAddProjected)];
      l' := InSpaceStep(l, i, OpAddProjected);
    } else {
      ops, l' := [], l;
      NoStep(l);
    }
  }

  /// Projecting the remote tab on it, if it is there.
  lemma ProjectIsRun(l: Live, i: nat, id: int, deps: Deps, remote: T.RemoteTab, a: Arrival, o: T.Outcome)
    returns (ops: seq<SessionOp>, l': Live)
    requires i < |l.session.spaces|
    requires var at := IndexOfTab(l.session.spaces[i].tabs.tabs, id);
             at.Some? ==>
               var panes := l.session.spaces[i].tabs.tabs[at.value].panes;
               o == OutcomeOf(panes, a) && Arrives(panes, deps, a) && ArrivalHosts(a) !! AllHosts(l.session)
    ensures Reaches(l, ops, l')
    ensures l'.session == WithTabs(l.session, i, T.ProjectTab(l.session.spaces[i].tabs, id, remote, o).0)
  {
    hide IndexOfTab;
    hide AllHosts;
    hide OutcomeOf;
    hide Arrives;
    hide ArrivalHosts;
    hide ArrivalCalls;
    hide T.ProjectOn;
    Again(l.session, i, l.session.spaces[i].tabs, l.session.spaces[i].tabs);
    if IndexOfTab(l.session.spaces[i].tabs.tabs, id).Some? {
      ops := [Project(i, id, deps, remote, a)];
      OneStep(l, ops[0]);
      l' := After(l, ops[0]);
    } else {
      ops, l' := [], l;
      NoStep(l);
    }
  }

  lemma PlaceIsRun(l: Live, i: nat, p: T.Pass, space: int, deps: Deps, remote: T.RemoteTab, a: Arrival, o: T.Outcome)
    returns (ops: seq<SessionOp>, l': Live)
    requires i < |l.session.spaces| && l.session.spaces[i].tabs == p.tabs && Fits(l.session, i, p, deps, remote, a, o)
    ensures Reaches(l, ops, l') && l'.session == WithTabs(l.session, i, T.Place(p, space, remote, o).tabs)
  {
    hide Reaches;
    hide AllHosts;
    hide OutcomeOf;
    hide Arrives;
    hide ArrivalHosts;
    hide IndexOfTab;
    hide T.ProjectTab;
    hide T.FirstUnreserved;
    hide AddProjected;
    hide WithTabs;
    var (tabs, id) := Target(p, remote);
    var ops1, l1 := AdoptIsRun(l, i, p, remote);
    Again(l.session, i, tabs, T.ProjectTab(tabs, id, remote, o).0);
    if remote.id !in p.tabMap && id < 0 {
      ops, l' := ops1, l1;
    } else {
      var ops2, l2 := ProjectIsRun(l1, i, id, deps, remote, a, o);
      ops, l' := ops1 + ops2, l2;
      Joined(l, ops1, l1, ops2, l2);
    }
  }

  /// The k-th remote tab comes with the k-th arrival.
  ghost predicate PassFits(s: Spaces, i: nat, p: T.Pass, space: int, deps: Deps, remotes: seq<T.RemoteTab>,
                           arrivals: nat -> Arrival, outcomes: nat -> T.Outcome)
    requires i < |s.spaces|
  {
    forall k :: 0 <= k < |remotes| ==>
      Fits(s, i, T.PlaceAll(p, space, remotes, outcomes, k), deps, remotes[k], arrivals(k), outcomes(k))
  }

  lemma {:induction false} PlaceAllIsRun(l: Live, i: nat, p: T.Pass, space: int, deps: Deps, remotes: seq<T.RemoteTab>,
                                         arrivals: nat -> Arrival, outcomes: nat -> T.Outcome, k: nat)
    returns (ops: seq<SessionOp>, l': Live)
    requires i < |l.session.spaces| && l.session.spaces[i].tabs == p.tabs && k <= |remotes|
    requires PassFits(l.session, i, p, space, deps, remotes, arrivals, outcomes)
    ensures Reaches(l, ops, l')
    ensures l'.session == WithTabs(l.session, i, T.PlaceAll(p, space, remotes, outcomes, k).tabs)
  {
    hide Reaches;
    hide PassFits;
    hide T.PlaceAll;
    hide T.Place;
    hide WithTabs;
    PlaceAllSteps(p, space, remotes, outcomes, k);
    if k == 0 {
      Again(l.session, i, p.tabs, p.tabs);
      ops, l' := [], l;
      NoStep(l);
    } else {
      var ops1, l1 := PlaceAllIsRun(l, i, p, space, deps, remotes, arrivals, outcomes, k - 1);
      var q := T.PlaceAll(p, space, remotes, outcomes, k - 1);
      PassFitsAt(l.session, i, p, space, deps, remotes, arrivals, outcomes, k - 1);
      ops, l' := OneMorePlaced(l, ops1, l1, i, q, space, deps, remotes[k - 1], arrivals(k - 1), outcomes(k - 1));
    }
  }

  lemma PlaceAllSteps(p: T.Pass, space: int, remotes: seq<T.RemoteTab>, outcomes: nat -> T.Outcome, k: nat)
    requires k <= |remotes|
    ensures T.PlaceAll(p, space, remotes, outcomes, k) ==
              if k == 0 then p
              else T.Place(T.PlaceAll(p, space, remotes, outcomes, k - 1), space, remotes[k - 1], outcomes(k - 1))
  {
    hide T.Place;
  }

  lemma PassFitsAt(s: Spaces, i: nat, p: T.Pass, space: int, deps: Deps, remotes: seq<T.RemoteTab>,
                   arrivals: nat -> Arrival, outcomes: nat -> T.Outcome, k: nat)
    requires i < |s.spaces| && k < |remotes| && PassFits(s, i, p, space, deps, remotes, arrivals, outcomes)
    ensures Fits(s, i, T.PlaceAll(p, space, remotes, outcomes, k), deps, remotes[k], arrivals(k), outcomes(k))
  {
    hide Fits;
    hide T.PlaceAll;
  }

  lemma OneMorePlaced(l: Live, ops1: seq<SessionOp>, l1: Live, i: nat, q: T.Pass, space: int, deps: Deps,
                      remote: T.RemoteTab, a: Arrival, o: T.Outcome)
    returns (ops: seq<SessionOp>, l': Live)
    requires i < |l.session.spaces| && Reaches(l, ops1, l1) && l1.session == WithTabs(l.session, i, q.tabs)
    requires Fits(l.session, i, q, deps, remote, a, o)
    ensures Reaches(l, ops, l') && l'.session == WithTabs(l.session, i, T.Place(q, space, remote, o).tabs)
  {
    hide Reaches;
    hide Fits;
    hide T.Place;
    hide WithTabs;
    FitsThere(l.session, i, q, deps, remote, a, o);
    Again(l.session, i, q.tabs, T.Place(q, space, remote, o).tabs);
    var ops2, l2 := PlaceIsRun(l1, i, q, space, deps, remote, a, o);
    ops, l' := ops1 + ops2, l2;
    Joined(l, ops1, l1, ops2, l2);
  }

  lemma FitsThere(s: Spaces, i: nat, p: T.Pass, deps: Deps, remote: T.RemoteTab, a: Arrival, o: T.Outcome)
    requires i < |s.spaces| && Fits(s, i, p, deps, remote, a, o)
    ensures |WithTabs(s, i, p.tabs).spaces| == |s.spaces| && Fits(WithTabs(s, i, p.tabs), i, p, deps, remote, a, o)
  {
    Again(s, i, p.tabs, Target(p, remote).0);
    hide WithTabs;
    hide Target;
    hide AllHosts;
    hide OutcomeOf;
    hide Arrives;
    hide ArrivalHosts;
    hide IndexOfTab;
  }

  lemma {:induction false} CloseEachIsRun(l: Live, i: nat, ids: seq<int>) returns (ops: seq<SessionOp>, l': Live)
    requires i < |l.session.spaces|
    ensures Reaches(l, ops, l')
    ensures l'.session == WithTabs(l.session, i, T.CloseEach(l.session.spaces[i].tabs, ids))
  {
    hide Reaches;
    hide CloseTab;
    hide WithTabs;
    var t := l.session.spaces[i].tabs;
    Again(l.session, i, t, t);
    if ids == [] {
      ops, l' := [], l;
      NoStep(l);
    } else {
      var ops1, l1 := CloseEachIsRun(l, i, ids[..|ids| - 1]);
      var last := ids[|ids| - 1];
      Again(l.session, i, T.CloseEach(t, ids[..|ids| - 1]), CloseTab(T.CloseEach(t, ids[..|ids| - 1]), last).0);
      l' := InSpaceStep(l1, i, OpClose(last));
      ops := ops1 + [InSpace(i, OpClose(last))];
      Joined(l, ops1, l1, [InSpace(i, OpClose(last))], l');
    }
  }

  /// Closing, reordering and activating after the pass.
  lemma FinishIsRun(l: Live, i: nat, p: T.Pass, active: int, remotes: seq<T.RemoteTab>)
    returns (ops: seq<SessionOp>, l': Live)
    requires i < |l.session.spaces| && l.session.spaces[i].tabs == p.tabs
    ensures Reaches(l, ops, l') && l'.session == WithTabs(l.session, i, T.FinishPass(p, active, remotes).0)
  {
    hide Reaches;
    hide WithTabs;
    hide T.CloseEach;
    hide T.Unclaimed;
    hide Reorder;
    hide Activate;
    hide ActiveTab;
    var closed := T.CloseEach(p.tabs, T.Unclaimed(p.tabs.tabs, p.claimed));
    var ordered := Reorder(closed, p.ordered).0;
    var end := T.FinishPass(p, active, remotes).0;
    var ops1, l1 := CloseEachIsRun(l, i, T.Unclaimed(p.tabs.tabs, p.claimed));
    Again(l.session, i, closed, ordered);
    var l2 := InSpaceStep(l1, i, OpReorder(p.ordered));
    var ops2 := ops1 + [InSpace(i, OpReorder(p.ordered))];
    Joined(l, ops1, l1, [InSpace(i, OpReorder(p.ordered))], l2);
    Again(l.session, i, ordered, end);
    if end == ordered {
      ops, l' := ops2, l2;
    } else {
      var id := if active >= 0 && active in p.claimed then active else p.tabMap[remotes[0].id].1;
      l' := InSpaceStep(l2, i, OpActivate(id));
      ops := ops2 + [InSpace(i, OpActivate(id))];
      Joined(l, ops2, l2, [InSpace(i, OpActivate(id))], l');
    }
  }

  // ---------------------------------------------------------------------------
  // All tabs

  /// Each remote tab of the Space comes with its arrival.
  ghost predicate SpaceFits(t: T.Topology, deps: Deps, remote: T.RemoteSpace, arrivals: nat -> Arrival,
                            outcomes: nat -> T.Outcome) {
    remote.id in t.spaceMap && IndexOfSpace(t.session.spaces, t.spaceMap[remote.id]).Some? ==>
      var i, space := IndexOfSpace(t.session.spaces, t.spaceMap[remote.id]).value, t.spaceMap[remote.id];
      var p := T.StartPass(t.session.spaces[i].tabs, t.tabMap, space);
      PassFits(t.session, i, p, space, deps, remote.tabs, arrivals, outcomes)
  }

  lemma ApplySpaceIsRun(l: Live, t: T.Topology, deps: Deps, remote: T.RemoteSpace, arrivals: nat -> Arrival,
                        outcomes: nat -> T.Outcome)
    returns (ops: seq<SessionOp>, l': Live)
    requires l.session == t.session && SpaceFits(t, deps, remote, arrivals, outcomes)
    ensures Reaches(l, ops, l') && l'.session == T.ApplySpace(t, remote, outcomes).0.session
  {
    hide Reaches;
    hide PassFits;
    hide T.PlaceAll;
    hide T.FinishPass;
    hide WithTabs;
    hide IndexOfSpace;
    if remote.id in t.spaceMap && IndexOfSpace(t.session.spaces, t.spaceMap[remote.id]).Some? {
      var i, space := IndexOfSpace(t.session.spaces, t.spaceMap[remote.id]).value, t.spaceMap[remote.id];
      var before := t.session.spaces[i].tabs;
      var p := T.StartPass(before, t.tabMap, space);
      var q := T.PassOver(before, t.tabMap, space, remote.tabs, outcomes);
      var end := T.FinishPass(q, before.active, remote.tabs).0;
      var ops1, l1 := PlaceAllIsRun(l, i, p, space, deps, remote.tabs, arrivals, outcomes, |remote.tabs|);
      Again(l.session, i, q.tabs, end);
      var ops2, l2 := FinishIsRun(l1, i, q, before.active, remote.tabs);
      ops, l' := ops1 + ops2, l2;
      Joined(l, ops1, l1, ops2, l2);
    } else {
      ops, l' := [], l;
      NoStep(l);
    }
  }

  /// Each remote tab comes with its arrival, when its Space has its turn.
  ghost predicate TabsFit(t: T.Topology, deps: Deps, snap: seq<T.RemoteSpace>, arrivals: nat -> nat -> Arrival,
                          outcomes: T.Outcomes) {
    forall k :: 0 <= k < |snap| ==>
      SpaceFits(T.ApplyEach(t, snap, outcomes, k).0, deps, snap[k], arrivals(k), outcomes(k))
  }

  lemma TabsFitAt(t: T.Topology, deps: Deps, snap: seq<T.RemoteSpace>, arrivals: nat -> nat -> Arrival,
                  outcomes: T.Outcomes, k: nat)
    requires k < |snap| && TabsFit(t, deps, snap, arrivals, outcomes)
    ensures SpaceFits(T.ApplyEach(t, snap, outcomes, k).0, deps, snap[k], arrivals(k), outcomes(k))
  {
    hide SpaceFits;
    hide T.ApplyEach;
  }

  lemma ApplyEachSteps(t: T.Topology, snap: seq<T.RemoteSpace>, outcomes: T.Outcomes, k: nat)
    requires k <= |snap|
    ensures T.ApplyEach(t, snap, outcomes, k).0 ==
              if k == 0 then t
              else T.ApplySpace(T.ApplyEach(t, snap, outcomes, k - 1).0, snap[k - 1], outcomes(k - 1)).0
  {
    hide T.ApplySpace;
  }

  lemma {:induction false} ApplyEachIsRun(l: Live, t: T.Topology, deps: Deps, snap: seq<T.RemoteSpace>,
                                          arrivals: nat -> nat -> Arrival, outcomes: T.Outcomes, k: nat)
    returns (ops: seq<SessionOp>, l': Live)
    requires l.session == t.session && k <= |snap| && TabsFit(t, deps, snap, arrivals, outcomes)
    ensures Reaches(l, ops, l') && l'.session == T.ApplyEach(t, snap, outcomes, k).0.session
  {
    hide Reaches;
    hide TabsFit;
    hide SpaceFits;
    hide T.ApplyEach;
    hide T.ApplySpace;
    ApplyEachSteps(t, snap, outcomes, k);
    if k == 0 {
      ops, l' := [], l;
      NoStep(l);
    } else {
      var ops1, l1 := ApplyEachIsRun(l, t, deps, snap, arrivals, outcomes, k - 1);
      var t1 := T.ApplyEach(t, snap, outcomes, k - 1).0;
      TabsFitAt(t, deps, snap, arrivals, outcomes, k - 1);
      var ops2, l2 := ApplySpaceIsRun(l1, t1, deps, snap[k - 1], arrivals(k - 1), outcomes(k - 1));
      ops, l' := ops1 + ops2, l2;
      Joined(l, ops1, l1, ops2, l2);
    }
  }

  lemma CloseInIsRun(l: Live, space: int, tab: int) returns (ops: seq<SessionOp>, l': Live)
    ensures Reaches(l, ops, l') && l'.session == T.CloseIn(l.session, space, tab)
  {
    hide Reaches;
    hide CloseTab;
    hide WithTabs;
    hide IndexOfSpace;
    match IndexOfSpace(l.session.spaces, space)
    case None =>
      ops, l' := [], l;
      NoStep(l);
    case Some(i) =>
      ops := [InSpace(i, OpClose(tab))];
      l' := InSpaceStep(l, i, OpClose(tab));
  }

  lemma {:induction false} SweepIsRun(l: Live, tabMap: T.TabMap, live: set<string>, order: seq<string>)
    returns (ops: seq<SessionOp>, l': Live)
    ensures Reaches(l, ops, l') && l'.session == T.SweepSession(l.session, tabMap, live, order)
  {
    hide Reaches;
    hide T.CloseIn;
    if order == [] {
      ops, l' := [], l;
      NoStep(l);
    } else {
      var r := order[|order| - 1];
      var ops1, l1 := SweepIsRun(l, tabMap, live, order[..|order| - 1]);
      if r in live || r !in tabMap {
        ops, l' := ops1, l1;
      } else {
        var ops2, l2 := CloseInIsRun(l1, tabMap[r].0, tabMap[r].1);
        ops, l' := ops1 + ops2, l2;
        Joined(l, ops1, l1, ops2, l2);
      }
    }
  }

  lemma EnterIsRun(l: Live, t: T.Topology) returns (ops: seq<SessionOp>, l': Live)
    requires l.session == t.session
    ensures Reaches(l, ops, l') && l'.session == T.EnterStartup(t).session
  {
    hide Reaches;
    hide WithTabs;
    hide IndexOfSpace;
    hide Activate;
    hide ActivateSpace;
    ops, l' := [], l;
    NoStep(l);
    if t.startup != "" && t.startup in t.tabMap {
      var (space, tab) := t.tabMap[t.startup];
      match IndexOfSpace(t.session.spaces, space)
      case None =>
      case Some(i) =>
        if Activate(t.session.spaces[i].tabs, tab).1 {
          var l1 := InSpaceStep(l, i, OpActivate(tab));
          var l2 := EnterStep(l1, space);
          ops, l' := [InSpace(i, OpActivate(tab))] + [Enter(space)], l2;
          Joined(l, [InSpace(i, OpActivate(tab))], l1, [Enter(space)], l2);
        }
    }
  }

  lemma EnterStep(l: Live, id: int) returns (l': Live)
    ensures Reaches(l, [Enter(id)], l') && l'.session == ActivateSpace(l.session, id).0
  {
    hide ActivateSpace;
    hide EnterFocus;
    OneStep(l, Enter(id));
    l' := After(l, Enter(id));
  }

  lemma TabsAreRun(l: Live, t: T.Topology, deps: Deps, snap: seq<T.RemoteSpace>, arrivals: nat -> nat -> Arrival,
                   outcomes: T.Outcomes, order: seq<string>)
    returns (ops: seq<SessionOp>, l': Live)
    requires l.session == t.session && (T.Resolvable(t, snap) ==> TabsFit(t, deps, snap, arrivals, outcomes))
    ensures Reaches(l, ops, l') && l'.session == T.ApplyTabs(t, snap, outcomes, order).0.session
  {
    hide Reaches;
    hide TabsFit;
    hide T.ApplyEach;
    hide T.SweepSession;
    hide T.Resolvable;
    hide T.EnterStartup;
    if !T.Resolvable(t, snap) {
      ops, l' := [], l;
      NoStep(l);
    } else {
      var (t1, ok) := T.ApplyEach(t, snap, outcomes, |snap|);
      var t2 := T.Sweep(t1, T.LiveTabs(snap), order);
      var ops1, l1 := ApplyEachIsRun(l, t, deps, snap, arrivals, outcomes, |snap|);
      var ops2, l2 := SweepIsRun(l1, t1.tabMap, T.LiveTabs(snap), order);
      Joined(l, ops1, l1, ops2, l2);
      ops, l' := ops1 + ops2, l2;
      if ok {
        var ops3, l3 := EnterIsRun(l2, t2);
        Joined(l, ops, l2, ops3, l3);
        ops, l' := ops + ops3, l3;
      }
    }
  }

  // ---------------------------------------------------------------------------
  // All Spaces

  lemma CreateStep(l: Live, name: string, root: string) returns (l': Live)
    ensures Reaches(l, [SessionOp.Create(name, root)], l') && l'.session == CreateSpace(l.session, name, root).0
  {
    hide CreateSpace;
    OneStep(l, SessionOp.Create(name, root));
    l' := After(l, SessionOp.Create(name, root));
  }

  lemma CloseStep(l: Live, id: int) returns (l': Live)
    ensures Reaches(l, [Close(id)], l') && l'.session == CloseSpace(l.session, id).0
  {
    hide CloseSpace;
    hide CloseFocus;
    OneStep(l, Close(id));
    l' := After(l, Close(id));
  }

  lemma NameStep(l: Live, id: int, name: string, root: string) returns (l': Live)
    ensures Reaches(l, [Rename(id, name), SetRoot(id, root)], l')
    ensures l'.session == SetSpaceRoot(RenameSpace(l.session, id, name), id, root)
  {
    hide SetSpaceRoot;
    hide RenameSpace;
    OneStep(l, Rename(id, name));
    var l1 := After(l, Rename(id, name));
    OneStep(l1, SetRoot(id, root));
    l' := After(l1, SetRoot(id, root));
    Joined(l, [Rename(id, name)], l1, [SetRoot(id, root)], l');
    assert [Rename(id, name)] + [SetRoot(id, root)] == [Rename(id, name), SetRoot(id, root)];
  }

  lemma {:induction false} CreateMissingIsRun(l: Live, t: T.Topology, snap: seq<T.RemoteSpace>, k: nat)
    returns (ops: seq<SessionOp>, l': Live)
    requires l.session == t.session && k <= |snap|
    ensures Reaches(l, ops, l') && l'.session == T.CreateMissing(t, snap, k).0.session
  {
    hide Reaches;
    hide CreateSpace;
    if k == 0 {
      ops, l' := [], l;
      NoStep(l);
    } else {
      var ops1, l1 := CreateMissingIsRun(l, t, snap, k - 1);
      var (t1, ok) := T.CreateMissing(t, snap, k - 1);
      var remote := snap[k - 1];
      ops, l' := ops1, l1;
      if ok && remote.id !in t1.spaceMap && CreateSpace(t1.session, remote.name, remote.root).1 >= 0 {
        l' := CreateStep(l1, remote.name, remote.root);
        ops := ops1 + [SessionOp.Create(remote.name, remote.root)];
        Joined(l, ops1, l1, [SessionOp.Create(remote.name, remote.root)], l');
      }
    }
  }

  lemma {:induction false} CloseRemovedIsRun(l: Live, spaceMap: map<string, int>, live: set<string>, order: seq<string>)
    returns (ops: seq<SessionOp>, l': Live)
    ensures Reaches(l, ops, l') && l'.session == T.CloseRemoved(l.session, spaceMap, live, order).0
  {
    hide Reaches;
    hide CloseSpace;
    if order == [] {
      ops, l' := [], l;
      NoStep(l);
    } else {
      var ops1, l1 := CloseRemovedIsRun(l, spaceMap, live, order[..|order| - 1]);
      var r := order[|order| - 1];
      ops, l' := ops1, l1;
      if r !in live && r in spaceMap {
        l' := CloseStep(l1, spaceMap[r]);
        ops := ops1 + [Close(spaceMap[r])];
        Joined(l, ops1, l1, [Close(spaceMap[r])], l');
      }
    }
  }

  lemma {:induction false} EraseAllKeepsSession(t: T.Topology, removed: seq<string>)
    ensures T.EraseAll(t, removed).session == t.session
  {
    if removed != [] {
      EraseAllKeepsSession(t, removed[..|removed| - 1]);
    }
  }

  lemma {:induction false} RenameIsRun(l: Live, t: T.Topology, snap: seq<T.RemoteSpace>, k: nat)
    returns (ops: seq<SessionOp>, l': Live)
    requires l.session == t.session && k <= |snap|
    ensures Reaches(l, ops, l') && l'.session == T.Rename(t, snap, k).session
  {
    hide Reaches;
    hide RenameSpace;
    hide SetSpaceRoot;
    if k == 0 {
      ops, l' := [], l;
      NoStep(l);
    } else {
      var ops1, l1 := RenameIsRun(l, t, snap, k - 1);
      var t1, remote := T.Rename(t, snap, k - 1), snap[k - 1];
      ops, l' := ops1, l1;
      if remote.id in t1.spaceMap {
        var id := t1.spaceMap[remote.id];
        l' := NameStep(l1, id, remote.name, remote.root);
        ops := ops1 + [Rename(id, remote.name), SetRoot(id, remote.root)];
        Joined(l, ops1, l1, [Rename(id, remote.name), SetRoot(id, remote.root)], l');
      }
    }
  }

  lemma SpacesAreRun(l: Live, t: T.Topology, snap: seq<T.RemoteSpace>, order: seq<string>)
    returns (ops: seq<SessionOp>, l': Live)
    requires l.session == t.session
    ensures Reaches(l, ops, l') && l'.session == T.ApplySpaces(t, snap, order).0.session
  {
    hide Reaches;
    hide T.CreateMissing;
    hide T.CloseRemoved;
    hide T.EraseAll;
    hide T.Rename;
    ops, l' := [], l;
    NoStep(l);
    if snap != [] {
      var t1 := if t.spaceMap == map[] then T.BindSpace(t, snap[0].id, t.session.active) else t;
      var (t2, ok) := T.CreateMissing(t1, snap, |snap|);
      ops, l' := CreateMissingIsRun(l, t1, snap, |snap|);
      if ok {
        var (session, removed) := T.CloseRemoved(t2.session, t2.spaceMap, T.LiveSpaces(snap), order);
        var t3 := T.EraseAll(t2.(session := session), removed);
        EraseAllKeepsSession(t2.(session := session), removed);
        var ops2, l2 := CloseRemovedIsRun(l', t2.spaceMap, T.LiveSpaces(snap), order);
        Joined(l, ops, l', ops2, l2);
        var ops3, l3 := RenameIsRun(l2, t3, snap, |snap|);
        Joined(l, ops + ops2, l2, ops3, l3);
        ops, l' := ops + ops2 + ops3, l3;
      }
    }
  }

  // ---------------------------------------------------------------------------
  // A snapshot

  /// Each remote tab comes with its arrival, once the Space phase is through.
  ghost predicate SnapshotFits(t: T.Topology, deps: Deps, snap: seq<T.RemoteSpace>, arrivals: nat -> nat -> Arrival,
                               outcomes: T.Outcomes, order: seq<string>) {
    var (t1, ok) := T.ApplySpaces(t, snap, order);
    ok && T.Resolvable(t1, snap) ==> TabsFit(t1, deps, snap, arrivals, outcomes)
  }

  /// Applying a snapshot is a sequence of session operations. It leaves the panes of
  /// every tab sound, and the focus of the session where it belongs unless one of the
  /// operations is astray.
  lemma SnapshotKeepsFocus(l: Live, t: T.Topology, deps: Deps, snap: seq<T.RemoteSpace>,
                           arrivals: nat -> nat -> Arrival, outcomes: T.Outcomes,
                           spaceOrder: seq<string>, tabOrder: seq<string>)
    returns (ops: seq<SessionOp>, l': Live)
    requires l.session == t.session && Focused(l) && EveryOwn(t.session)
    requires SnapshotFits(t, deps, snap, arrivals, outcomes, spaceOrder)
    ensures Reaches(l, ops, l') && l'.session == T.ApplySnapshot(t, snap, outcomes, spaceOrder, tabOrder).0.session
    ensures EveryOwn(l'.session) && (OnCourse(l, ops) ==> Focused(l'))
  {
    hide Reaches;
    hide Focused;
    hide EveryOwn;
    hide OnCourse;
    hide TabsFit;
    hide T.ApplySpaces;
    hide T.ApplyTabs;
    hide T.Resolvable;
    var (t1, ok) := T.ApplySpaces(t, snap, spaceOrder);
    ops, l' := SpacesAreRun(l, t, snap, spaceOrder);
    if ok {
      var ops2, l2 := TabsAreRun(l', t1, deps, snap, arrivals, outcomes, tabOrder);
      Joined(l, ops, l', ops2, l2);
      ops, l' := ops + ops2, l2;
    }
    CourseKept(l, ops, l');
  }
}
