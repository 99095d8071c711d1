/** What one pass over the tabs of a Space does: the tab map stays injective and no
    claimed tab is lost. */
module TopologyLaws {
  import opened Identifiers
  import opened SplitTrees
  import opened PaneModel
  import opened TabModel
  import opened TabControllers
  import opened TabLaws
  import opened SpaceModel
  import opened TopologyModel

  // ---------------------------------------------------------------------------
  // One pass: adopting and adding tabs

  ghost predicate Unique(m: TabMap) {
    forall a, b :: a in m && b in m && a != b ==> m[a] != m[b]
  }

  /// Local tabs of this Space that any remote tab maps to, even a stale one, are
  /// reserved, and nothing reserved can be handed out again by the counter.
  ghost predicate PassOk(p: Pass, space: int) {
    && TabsOk(p.tabs) && Unique(p.tabMap)
    && (forall r :: r in p.tabMap && p.tabMap[r].0 == space ==> p.tabMap[r].1 in p.reserved)
    && (forall id :: id in p.reserved ==> 0 <= id < p.tabs.next)
  }

  /// What a pass may do to the maps and tabs: bind more remote tabs, to tabs that
  /// are there, and add tabs.
  ghost predicate Grown(p: Pass, q: Pass, space: int) {
    && (forall r :: r in p.tabMap ==> r in q.tabMap && q.tabMap[r] == p.tabMap[r])
    && (forall r :: r in q.tabMap && r !in p.tabMap ==> q.tabMap[r].0 == space && q.tabMap[r].1 in Ids(q.tabs.tabs))
    && (forall id :: id in Ids(p.tabs.tabs) ==> id in Ids(q.tabs.tabs))
    && p.claimed <= q.claimed && p.tabs.next <= q.tabs.next
    && q.tabs.active == p.tabs.active && q.tabs.focusEnabled == p.tabs.focusEnabled
  }

  lemma ProjectTabLaw(t: Tabs, id: int, remote: RemoteTab, o: Outcome)
    ensures var (t', ok) := ProjectTab(t, id, remote, o);
            && Ids(t'.tabs) == Ids(t.tabs) && t' == t.(tabs := t'.tabs)
            && (ok <==> id in Ids(t.tabs) && Projects(o))
            && (forall i :: 0 <= i < |t.tabs| && t.tabs[i].id != id ==> t'.tabs[i] == t.tabs[i])
            && (id in Ids(t.tabs) ==>
                  var tab := t'.tabs[IndexOfTab(t.tabs, id).value];
                  tab.id == id && tab.name == remote.name && tab.nameUserSet == remote.nameUserSet)
  {
    hide IndexOfTab;
    assert Ids(ProjectTab(t, id, remote, o).0.tabs) == Ids(t.tabs);
  }

  lemma AddProjectedLaw(t: Tabs)
    requires TabsOk(t)
    ensures var (t', id) := AddProjected(t);
            && TabsOk(t') && t'.active == t.active && t'.focusEnabled == t.focusEnabled
            && (id >= 0 ==> id == t.next && t'.next == t.next + 1 && Ids(t'.tabs) == Ids(t.tabs) + [id])
            && (id < 0 ==> t' == t && id == -1 && !ValidIdentifier(t.next))
  {
    if ValidIdentifier(t.next) {
      assert Ids(AddProjected(t).0.tabs) == Ids(t.tabs) + [t.next];
      assert forall i :: 0 <= i < |t.tabs| ==> Ids(t.tabs)[i] < t.next;
    }
  }

  /// Claiming changes no identifier.
  lemma ClaimKeeps(p: Pass, space: int, id: int, remote: RemoteTab, o: Outcome)
    requires PassOk(p, space)
    ensures var q := Claim(p, id, remote, o);
            PassOk(q, space) && Grown(p, q, space) && id in q.claimed && q.tabMap == p.tabMap
              && q.reserved == p.reserved
  {
    ProjectTabLaw(p.tabs, id, remote, o);
    SameIdsOk(p.tabs, ProjectTab(p.tabs, id, remote, o).0);
    hide ProjectTab;
    hide TabsOk;
  }

  lemma SameIdsOk(t: Tabs, t': Tabs)
    requires TabsOk(t) && Ids(t'.tabs) == Ids(t.tabs) && t'.active < t'.next == t.next
    ensures TabsOk(t')
  {
    assert forall i :: 0 <= i < |t'.tabs| ==> t'.tabs[i].id == Ids(t.tabs)[i] == t.tabs[i].id;
  }

  lemma AdoptedLaw(p: Pass, space: int)
    requires PassOk(p, space)
    ensures var (t', id) := Adopted(p);
            if id < 0 then t' == p.tabs && !ValidIdentifier(p.tabs.next)
            else
              && TabsOk(t') && id in Ids(t'.tabs) && id !in p.reserved && 0 <= id < t'.next
              && t'.active == p.tabs.active && t'.focusEnabled == p.tabs.focusEnabled
              && p.tabs.next <= t'.next <= p.tabs.next + 1
              && (forall x :: x in Ids(p.tabs.tabs) ==> x in Ids(t'.tabs))
              && p.tabs.tabs <= t'.tabs
  {
    var found := FirstUnreserved(p.tabs.tabs, p.reserved);
    hide FirstUnreserved;
    if found < 0 {
      AddProjectedLaw(p.tabs);
    } else {
      var i := IndexOfTab(p.tabs.tabs, found).value;
    }
  }

  /// A new binding keeps the map injective: the tab it gets was not reserved.
  lemma BoundKeeps(p: Pass, space: int, remote: string, t': Tabs, id: int)
    requires PassOk(p, space) && remote !in p.tabMap
    requires TabsOk(t') && id in Ids(t'.tabs) && id !in p.reserved && 0 <= id < t'.next && p.tabs.next <= t'.next
    requires t'.active == p.tabs.active && t'.focusEnabled == p.tabs.focusEnabled
    requires forall x :: x in Ids(p.tabs.tabs) ==> x in Ids(t'.tabs)
    ensures var q := p.(tabs := t', tabMap := p.tabMap[remote := (space, id)], reserved := p.reserved + {id});
            PassOk(q, space) && Grown(p, q, space)
  {
    hide TabsOk;
    hide Ids;
  }

  lemma GrownTrans(p: Pass, q: Pass, r: Pass, space: int)
    requires Grown(p, q, space) && Grown(q, r, space)
    ensures Grown(p, r, space)
  {
    hide Ids;
  }

  lemma PlaceKeeps(p: Pass, space: int, remote: RemoteTab, o: Outcome)
    requires PassOk(p, space)
    ensures var q := Place(p, space, remote, o);
            && PassOk(q, space) && Grown(p, q, space)
            && (remote.id in q.tabMap ==> q.tabMap[remote.id].1 in q.claimed)
            && (forall r :: r in q.tabMap && r !in p.tabMap ==> r == remote.id)
  {
    hide Claim;
    hide TabsOk;
    hide Ids;
    if remote.id in p.tabMap {
      ClaimKeeps(p, space, p.tabMap[remote.id].1, remote, o);
    } else {
      AdoptedLaw(p, space);
      var (t', id) := Adopted(p);
      if id >= 0 {
        BoundKeeps(p, space, remote.id, t', id);
        var q := p.(tabs := t', tabMap := p.tabMap[remote.id := (space, id)], reserved := p.reserved + {id});
        ClaimKeeps(q, space, id, remote, o);
        hide PassOk;
        GrownTrans(p, q, Claim(q, id, remote, o), space);
      }
    }
  }

  /// After a pass every remote tab of the Space that is bound is claimed, and only
  /// those were newly bound.
  lemma {:induction false} PlaceAllKeeps(p: Pass, space: int, remotes: seq<RemoteTab>, outcomes: nat -> Outcome, k: nat)
    requires k <= |remotes| && PassOk(p, space)
    ensures var q := PlaceAll(p, space, remotes, outcomes, k);
            && PassOk(q, space) && Grown(p, q, space)
            && (forall j :: 0 <= j < k && remotes[j].id in q.tabMap && q.tabMap[remotes[j].id].0 == space ==>
                q.tabMap[remotes[j].id].1 in q.claimed)
            && (forall r :: r in q.tabMap && r !in p.tabMap ==> exists j :: 0 <= j < k && remotes[j].id == r)
  {
    hide Place;
    hide PassOk;
    hide Ids;
    if k > 0 {
      PlaceAllKeeps(p, space, remotes, outcomes, k - 1);
      var q := PlaceAll(p, space, remotes, outcomes, k - 1);
      PlaceKeeps(q, space, remotes[k - 1], outcomes(k - 1));
      GrownTrans(p, q, Place(q, space, remotes[k - 1], outcomes(k - 1)), space);
    }
  }

  // ---------------------------------------------------------------------------
  // One pass: closing, ordering, activating

  lemma {:induction false} UnclaimedLaw(tabs: seq<Tab>, claimed: set<int>)
    ensures forall id :: id in Unclaimed(tabs, claimed) <==> id in Ids(tabs) && id !in claimed
  {
    if tabs != [] {
      UnclaimedLaw(tabs[..|tabs| - 1], claimed);
      assert Ids(tabs) == Ids(tabs[..|tabs| - 1]) + [tabs[|tabs| - 1].id];
    }
  }

  lemma TabIdsWithout(tabs: seq<Tab>, i: nat)
    requires i < |tabs|
    ensures Ids(tabs[..i] + tabs[i + 1..]) == Ids(tabs)[..i] + Ids(tabs)[i + 1..] && Ids(tabs)[i] == tabs[i].id
  {}

  /// Closing a tab takes away that tab and no other.
  lemma CloseTabLaw(t: Tabs, id: int)
    requires TabsOk(t)
    ensures var (t', ok) := CloseTab(t, id);
            && TabsOk(t') && t'.next == t.next && t'.focusEnabled == t.focusEnabled
            && (forall x :: x in Ids(t'.tabs) ==> x in Ids(t.tabs))
            && (forall x :: x in Ids(t.tabs) && x != id ==> x in Ids(t'.tabs))
            && (ok ==> id !in Ids(t'.tabs))
            && (ok <==> id in Ids(t.tabs) && |t.tabs| > 1)
            && (forall tab :: tab in t'.tabs ==> tab in t.tabs)
  {
    hide IndexOfTab;
    if CloseTab(t, id).1 {
      var i := IndexOfTab(t.tabs, id).value;
      var t' := CloseTab(t, id).0;
      TabIdsWithout(t.tabs, i);
      DroppedAt(Ids(t.tabs), i);
      DroppedDistinct(Ids(t.tabs), i);
      DroppedGone(Ids(t.tabs), i);
      DroppedAt(t.tabs, i);
      forall x | x in Ids(t.tabs) && x != id ensures x in Ids(t'.tabs) { DroppedStill(Ids(t.tabs), i, x); }
      hide Ids;
      hide Distinct;
    }
  }

  lemma {:induction false} CloseEachLaw(t: Tabs, ids: seq<int>)
    requires TabsOk(t)
    ensures var t' := CloseEach(t, ids);
            && TabsOk(t') && t'.next == t.next && t'.focusEnabled == t.focusEnabled
            && (forall x :: x in Ids(t'.tabs) ==> x in Ids(t.tabs))
            && (forall x :: x in Ids(t.tabs) && x !in ids ==> x in Ids(t'.tabs))
            && (forall tab :: tab in t'.tabs ==> tab in t.tabs)
  {
    hide CloseTab;
    hide TabsOk;
    hide Ids;
    if ids != [] {
      CloseEachLaw(t, ids[..|ids| - 1]);
      CloseTabLaw(CloseEach(t, ids[..|ids| - 1]), ids[|ids| - 1]);
    }
  }

  lemma ActivateOk(t: Tabs, id: int)
    requires TabsOk(t)
    ensures TabsOk(Activate(t, id).0) && Activate(t, id).0.tabs == t.tabs && Activate(t, id).0.next == t.next
    ensures Activate(t, id).0.focusEnabled == t.focusEnabled
  {}

  lemma ReactivateOk(t: Tabs, p: Pass, active: int, remotes: seq<RemoteTab>)
    requires TabsOk(t)
    ensures var t' := Reactivate(t, p, active, remotes);
            TabsOk(t') && t'.tabs == t.tabs && t'.next == t.next && t'.focusEnabled == t.focusEnabled
  {
    hide TabsOk;
    hide Activate;
    ActivateOk(t, active);
    if remotes != [] && remotes[0].id in p.tabMap { ActivateOk(t, p.tabMap[remotes[0].id].1); }
  }

  lemma ReorderOk(t: Tabs, ids: seq<int>)
    requires TabsOk(t)
    ensures var (t', ok) := Reorder(t, ids);
            && TabsOk(t') && t'.next == t.next && t'.focusEnabled == t.focusEnabled
            && (forall x :: x in Ids(t'.tabs) <==> x in Ids(t.tabs)) && (ok ==> Ids(t'.tabs) == ids)
            && (forall tab :: tab in t'.tabs ==> tab in t.tabs)
  {
    ReorderLaw(t, ids);
    var (t', ok) := Reorder(t, ids);
    hide Reorder;
    if ok {
      InElements(ids);
      InElements(Ids(t.tabs));
      hide Elements;
      forall i | 0 <= i < |t'.tabs| ensures 0 <= t'.tabs[i].id < t.next { assert t'.tabs[i] in t.tabs; }
    }
  }

  /// Finishing a pass loses no claimed tab.
  lemma FinishKeeps(p: Pass, active: int, remotes: seq<RemoteTab>)
    requires TabsOk(p.tabs)
    ensures var t' := FinishPass(p, active, remotes).0;
            && TabsOk(t') && t'.next == p.tabs.next && t'.focusEnabled == p.tabs.focusEnabled
            && (forall x :: x in Ids(p.tabs.tabs) && x in p.claimed ==> x in Ids(t'.tabs))
  {
    hide TabsOk;
    hide Ids;
    hide Reorder;
    hide Reactivate;
    hide CloseEach;
    hide Unclaimed;
    UnclaimedLaw(p.tabs.tabs, p.claimed);
    var closed := CloseEach(p.tabs, Unclaimed(p.tabs.tabs, p.claimed));
    CloseEachLaw(p.tabs, Unclaimed(p.tabs.tabs, p.claimed));
    ReorderOk(closed, p.ordered);
    ReactivateOk(Reorder(closed, p.ordered).0, p, active, remotes);
  }
}
