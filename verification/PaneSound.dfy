/** What every operation keeps in every state, also beside leaves without a host
    and records without a leaf. */
module PaneSound {
  import opened Identifiers
  import opened SplitTrees
  import opened PaneNames
  import opened PaneModel
  import opened PaneInvariants
  import opened PaneReconcile

  /// Everything but the tables of one leaf is as Backed asks.
  ghost predicate BackedBut(p: Panes, id: LeafId) {
    && p.paneIds.Keys - {id} == p.hosts.Keys - {id} && p.hosts.Keys <= p.launches.Keys
    && p.launches.Keys == p.generations.Keys
    && Injective(p.generations)
    && (forall x :: x in p.generations ==> p.generations[x] < p.nextGeneration)
  }

  lemma WithPaneIdNamed(p: Panes, id: LeafId)
    requires NamedIds(p)
    ensures var q := WithPaneId(p, id);
            && NamedIds(q) && q.paneIds.Keys == p.paneIds.Keys + {id}
            && (Injective(p.paneIds) ==> Injective(q.paneIds))
  {
    if Injective(p.paneIds) {
      PaneIdIsNew(p, id);
    }
    hide Injective;
    hide FreshSerial;
  }

  lemma SameWithOne(a: set<LeafId>, b: set<LeafId>, id: LeafId)
    requires a - {id} == b - {id}
    ensures a + {id} == b + {id}
    ensures id !in b ==> a - {id} == b
  {
    forall x ensures x in a + {id} <==> x in b + {id} {
      assert x in a - {id} <==> x in b - {id};
    }
    if id !in b {
      assert b - {id} == b;
    }
  }

  lemma CreateBacked(p: Panes, deps: Deps, id: LeafId, launch: Launch, primary: bool, preserve: bool, m: HostMaker)
    requires BackedBut(p, id) && NamedIds(p)
    ensures var (q, ok) := CreateHost(p, deps, id, launch, primary, preserve, m);
            && NamedIds(q) && (Injective(p.paneIds) ==> Injective(q.paneIds))
            && (ok ==> Backed(q) && q.hosts.Keys == p.hosts.Keys + {id})
            && (!ok ==> q.hosts == p.hosts && (id !in p.hosts ==> Backed(q)))
            && q == p.(hosts := q.hosts, launches := q.launches, paneIds := q.paneIds,
                       generations := q.generations, nextGeneration := q.nextGeneration, nextSerial := q.nextSerial)
  {
    CreateOnlyTables(p, deps, id, launch, primary, preserve, m);
    WithPaneIdNamed(p, id);
    WithPaneIdOnly(p, id);
    SameWithOne(p.paneIds.Keys, p.hosts.Keys, id);
    var p1 := WithPaneId(p, id);
    var q := CreateHost(p, deps, id, launch, primary, preserve, m).0;
    hide StartsAs;
    hide WithPaneId;
    if CreateHost(p, deps, id, launch, primary, preserve, m).1 {
      GenerationAdded(p.generations, p.nextGeneration, id, q.generations);
    } else {
      Dropped(p1.paneIds, id, q.paneIds);
    }
    hide Injective;
  }

  lemma Dropped<V>(m: map<LeafId, V>, id: LeafId, n: map<LeafId, V>)
    requires n == m - {id}
    ensures Injective(m) ==> Injective(n)
  {}

  // ---------------------------------------------------------------------------
  // Focus, zoom, names and agents

  /// A tree with the same leaves, as sound as the one before.
  lemma SameLeavesSound(p: Panes, q: Panes)
    requires Sound(p) && q == p.(tree := q.tree, zoomed := q.zoomed, zoomedLeaf := q.zoomedLeaf)
    requires q.tree == p.tree || WellFormed(q.tree)
    requires LeafSet(q.tree) == LeafSet(p.tree) && ZoomLive(q)
    ensures Sound(q)
  {
    hide WellFormed;
    hide Injective;
    hide LeafSet;
    hide ZoomLive;
  }

  lemma FocusSound(p: Panes, id: LeafId)
    requires Sound(p)
    ensures Sound(UpdateFocus(p, id)) && TreeLeaves(UpdateFocus(p, id).tree) == TreeLeaves(p.tree)
  {
    if p.tree.focused != id && p.tree != EMPTY {
      SetFocusedLaw(p.tree, id);
      hide Backed;
      hide WellFormed;
      hide NamedIds;
      hide Injective;
      SameLeavesSound(p, UpdateFocus(p, id));
    }
  }

  lemma ToggleZoomSound(p: Panes)
    requires Sound(p)
    ensures Sound(ToggleZoom(p))
  {
    assert p.tree != EMPTY ==> p.tree.focused in LeafSet(p.tree);
    assert p.tree == EMPTY ==> TreeLeaves(p.tree) == [];
    hide WellFormed;
    hide LeafSet;
    hide TreeLeaves;
    hide Backed;
    hide NamedIds;
    hide Injective;
    SameLeavesSound(p, ToggleZoom(p));
  }

  lemma SwapSound(p: Panes, deps: Deps)
    requires Sound(p)
    ensures Sound(SwapWithNext(p, deps).0)
  {
    if p.tree != EMPTY {
      SwapLeavesLaw(p.tree, p.tree.focused, NextLeafAfter(p.tree, p.tree.focused));
      hide Backed;
      hide NamedIds;
      hide Injective;
      hide SwapLeaves;
      hide NextLeafAfter;
      SameLeavesSound(p, SwapWithNext(p, deps).0);
    }
  }

  /// Names, agents, policies and session references are no part of soundness.
  lemma RecordsSound(p: Panes, q: Panes)
    requires Sound(p) && q == p.(names := q.names, agents := q.agents, policies := q.policies, sessions := q.sessions)
    ensures Sound(q)
  {
    hide WellFormed;
    hide Injective;
    hide LeafSet;
  }

  // ---------------------------------------------------------------------------
  // Restart, close, split

  lemma RestartSound(p: Panes, deps: Deps, id: LeafId, m: HostMaker)
    requires Sound(p)
    ensures var (q, ok) := RestartPane(p, deps, id, m);
            Sound(q) && q.tree == p.tree && (ok || id !in p.hosts ==> q.hosts.Keys == p.hosts.Keys)
  {
    if id in p.hosts && id in p.launches && id != INVALID_LEAF {
      var p0 := p.(hosts := p.hosts - {id});
      var (q, ok) := CreateHost(p0, deps, id, p.launches[id], false, true, m);
      hide Injective;
      hide WellFormed;
      CreateBacked(p0, deps, id, p.launches[id], false, true, m);
      hide CreateHost;
      assert p0.hosts.Keys == p.hosts.Keys - {id};
      RebuiltSound(p, q, id);
    }
  }

  /// The host of one leaf was made again, or is gone.
  lemma RebuiltSound(p: Panes, q: Panes, id: LeafId)
    requires Sound(p) && Backed(q) && NamedIds(q) && (Injective(p.paneIds) ==> Injective(q.paneIds))
    requires id in p.hosts && (q.hosts.Keys == p.hosts.Keys - {id} || q.hosts.Keys == p.hosts.Keys)
    requires q.tree == p.tree && q.zoomed == p.zoomed && q.zoomedLeaf == p.zoomedLeaf
    requires q.previewLeaf == p.previewLeaf && q.previewOwner == p.previewOwner
    ensures Sound(q)
  {
    hide WellFormed;
    hide Injective;
    hide LeafSet;
    hide Backed;
    hide NamedIds;
    assert id in p.hosts.Keys;
  }

  lemma CloseSound(p: Panes, deps: Deps, id: LeafId)
    requires Sound(p)
    ensures Sound(ClosePane(p, deps, id).0)
  {
    if deps.allowLocalLayout && |TreeLeaves(p.tree)| > 1 && id in p.hosts {
      var q := ClosePane(p, deps, id).0;
      OwnerIsLeaf(p, id);
      CloseLeafLaw(p.tree, id);
      CloseZoomLive(p, deps, id);
      hide WellFormed;
      hide ZoomLive;
      hide CloseLeaf;
      hide LeafSet;
      hide Backed;
      hide NamedIds;
      hide Injective;
      ForgetBacked(p, id);
      ForgottenBacked(q, Forget(p, {id}));
      WithoutOne(LeafSet(p.tree), p.hosts.Keys, id);
      ClosedSound(p, q, id);
    }
  }

  lemma ClosedSound(p: Panes, q: Panes, id: LeafId)
    requires Sound(p) && Backed(q) && NamedIds(q) && ZoomLive(q) && WellFormed(q.tree)
    requires LeafSet(q.tree) == LeafSet(p.tree) - {id} && q.hosts == p.hosts - {id} && id in p.hosts
    requires LeafSet(p.tree) - {id} <= p.hosts.Keys - {id} <==> LeafSet(p.tree) <= p.hosts.Keys
    requires Injective(p.paneIds) ==> Injective(q.paneIds)
    requires var unpreview := id == p.previewLeaf || id == p.previewOwner;
             && q.previewLeaf == (if unpreview then INVALID_LEAF else p.previewLeaf)
             && q.previewOwner == (if unpreview then INVALID_LEAF else p.previewOwner)
    ensures Sound(q)
  {
    hide WellFormed;
    hide ZoomLive;
    hide LeafSet;
    hide Backed;
    hide NamedIds;
    hide Injective;
    assert q.hosts.Keys == p.hosts.Keys - {id};
  }

  lemma WithoutOne(a: set<LeafId>, b: set<LeafId>, id: LeafId)
    requires id in b
    ensures a - {id} <= b - {id} <==> a <= b
  {
    if a - {id} <= b - {id} {
      forall x | x in a ensures x in b {
        assert x == id || x in a - {id};
      }
    }
  }

  lemma CloseZoomLive(p: Panes, deps: Deps, id: LeafId)
    requires Sound(p) && WellFormed(p.tree) && |TreeLeaves(p.tree)| > 1 && id in LeafSet(p.tree)
    ensures ZoomLive(ClosePane(p, deps, id).0)
  {
    CloseLeafLaw(p.tree, id);
    hide Backed;
    hide WellFormed;
    hide NamedIds;
    hide Injective;
  }

  lemma ForgetBacked(p: Panes, id: LeafId)
    requires Backed(p) && NamedIds(p)
    ensures Backed(Forget(p, {id})) && NamedIds(Forget(p, {id}))
    ensures Injective(p.paneIds) ==> Injective(Forget(p, {id}).paneIds)
  {
    Dropped(p.generations, id, p.generations - {id});
    Dropped(p.paneIds, id, p.paneIds - {id});
    hide Injective;
  }

  lemma ForgottenBacked(q: Panes, r: Panes)
    requires Backed(r) && NamedIds(r)
    requires q.hosts == r.hosts && q.launches == r.launches && q.paneIds == r.paneIds && q.generations == r.generations
    requires q.nextGeneration == r.nextGeneration
    ensures Backed(q) && NamedIds(q)
  {}

  lemma SplitSound(p: Panes, deps: Deps, dir: Direction, launch: Launch, m: HostMaker)
    requires Sound(p)
    ensures var (q, leaf) := SplitPane(p, deps, dir, launch, m);
            && Sound(q) && LeafSet(p.tree) <= LeafSet(q.tree)
            && (leaf != INVALID_LEAF ==> leaf in LeafSet(q.tree))
  {
    var (tree, leaf) := SplitLeaf(p.tree, p.tree.focused, dir);
    if deps.allowLocalLayout && p.tree.focused != INVALID_LEAF && leaf != INVALID_LEAF {
      var (p1, ok) := CreateHost(p.(tree := tree), deps, leaf, Completed(launch, deps), false, false, m);
      SplitTried(p, deps, dir, Completed(launch, deps), m);
      hide SplitLeaf;
      hide CreateHost;
      hide Completed;
      hide Sound;
      hide LeafSet;
      hide CloseLeaf;
      if ok {
        FocusSound(p1, leaf);
        SameLeafSets(UpdateFocus(p1, leaf).tree, p1.tree);
      }
      hide UpdateFocus;
    }
  }

  /// The panes of a split when the host was made or not, and the tree put back then.
  lemma SplitTried(p: Panes, deps: Deps, dir: Direction, launch: Launch, m: HostMaker)
    requires Sound(p) && SplitLeaf(p.tree, p.tree.focused, dir).1 != INVALID_LEAF
    ensures var (tree, leaf) := SplitLeaf(p.tree, p.tree.focused, dir);
            var (p1, ok) := CreateHost(p.(tree := tree), deps, leaf, launch, false, false, m);
            if ok then Sound(p1) && LeafSet(p1.tree) == LeafSet(p.tree) + {leaf}
            else var q := p1.(tree := CloseLeaf(tree, leaf).0); Sound(q) && LeafSet(q.tree) == LeafSet(p.tree)
  {
    var (tree, leaf) := SplitLeaf(p.tree, p.tree.focused, dir);
    var p0 := p.(tree := tree);
    var (p1, ok) := CreateHost(p0, deps, leaf, launch, false, false, m);
    assert p.tree != EMPTY;
    SplitLeafLaw(p.tree, p.tree.focused, dir);
    hide WellFormed;
    hide CreateHost;
    hide SplitLeaf;
    hide CloseLeaf;
    hide LeafSet;
    hide TreeLeaves;
    hide Backed;
    hide BackedBut;
    hide NamedIds;
    hide Injective;
    NotYetHosted(p, p0, leaf);
    hide Sound;
    CreateBacked(p0, deps, leaf, launch, false, false, m);
    if ok {
      GrownSound(p, p1, leaf);
    } else {
      SplitUndone(p, p1.(tree := CloseLeaf(tree, leaf).0));
    }
  }

  lemma SameLeafSets(t: SplitTree, t': SplitTree)
    requires TreeLeaves(t) == TreeLeaves(t')
    ensures LeafSet(t) == LeafSet(t')
  {}

  lemma NotYetHosted(p: Panes, p0: Panes, leaf: LeafId)
    requires Sound(p) && leaf !in LeafSet(p.tree) && p0 == p.(tree := p0.tree)
    ensures leaf !in p.hosts && BackedBut(p0, leaf) && NamedIds(p0) && (p.tree == EMPTY || WellFormed(p.tree))
  {
    hide WellFormed;
    hide LeafSet;
    hide Injective;
    assert leaf !in p.hosts.Keys;
  }

  lemma GrownSound(p: Panes, q: Panes, leaf: LeafId)
    requires Sound(p) && Backed(q) && NamedIds(q) && (Injective(p.paneIds) ==> Injective(q.paneIds))
    requires leaf !in LeafSet(p.tree) && leaf !in p.hosts && q.hosts.Keys == p.hosts.Keys + {leaf}
    requires WellFormed(q.tree) && LeafSet(q.tree) == LeafSet(p.tree) + {leaf}
             && |TreeLeaves(q.tree)| >= |TreeLeaves(p.tree)|
    requires q.zoomed == p.zoomed && q.zoomedLeaf == p.zoomedLeaf && q.previewLeaf == p.previewLeaf
             && q.previewOwner == p.previewOwner
    ensures Sound(q)
  {
    hide WellFormed;
    hide Injective;
    hide LeafSet;
    hide Backed;
    hide NamedIds;
    hide TreeLeaves;
    if LeafSet(q.tree) <= q.hosts.Keys {
      forall x | x in LeafSet(p.tree) ensures x in p.hosts.Keys {
        assert x in LeafSet(q.tree);
      }
    }
  }

  lemma SplitUndone(p: Panes, q: Panes)
    requires Sound(p) && WellFormed(p.tree) && Backed(q) && NamedIds(q)
             && (Injective(p.paneIds) ==> Injective(q.paneIds))
    requires q.tree == p.tree.(nextId := p.tree.nextId + 1) && q.hosts == p.hosts && p.tree.nextId < LIMIT
    requires q.zoomed == p.zoomed && q.zoomedLeaf == p.zoomedLeaf && q.previewLeaf == p.previewLeaf
             && q.previewOwner == p.previewOwner
    ensures Sound(q) && LeafSet(q.tree) == LeafSet(p.tree)
  {
    assert WellFormed(q.tree) && TreeLeaves(q.tree) == TreeLeaves(p.tree);
    hide WellFormed;
    hide Injective;
    hide Backed;
    hide NamedIds;
  }

  // ---------------------------------------------------------------------------
  // The preview

  lemma PreviewForgotten(p: Panes, q: Panes)
    requires Sound(p) && (q == p || q == p.(previewLeaf := INVALID_LEAF, previewOwner := INVALID_LEAF))
    ensures Sound(q)
  {
    hide WellFormed;
    hide Injective;
    hide LeafSet;
  }

  lemma HidePreviewSound(p: Panes, deps: Deps)
    requires Sound(p)
    ensures Sound(HidePreview(p, deps))
  {
    hide Sound;
    hide ClosePane;
    hide UpdateFocus;
    var p0 := p.(previewLeaf := INVALID_LEAF, previewOwner := INVALID_LEAF);
    PreviewForgotten(p, p0);
    CloseSound(p0, deps, p.previewLeaf);
    FocusSound(ClosePane(p0, deps, p.previewLeaf).0, p.previewOwner);
  }

  lemma ShowPreviewSound(p: Panes, deps: Deps, owner: LeafId, ratio: real, path: string, m: HostMaker)
    requires Sound(p)
    ensures Sound(ShowPreview(p, deps, owner, ratio, path, m).0)
  {
    hide Sound;
    hide SplitOffPreview;
    PreviewForgotten(p, PreviewChecked(p));
    if owner in p.hosts {
      SplitOffSound(PreviewChecked(p), deps, owner, ratio, path, m);
    }
  }

  lemma SplitOffSound(p: Panes, deps: Deps, owner: LeafId, ratio: real, path: string, m: HostMaker)
    requires Sound(p) && owner in p.hosts
    ensures Sound(SplitOffPreview(p, deps, owner, ratio, path, m).0)
  {
    hide Sound;
    hide LeafSet;
    hide SplitPane;
    hide UpdateFocus;
    hide SetFocused;
    hide SetParentRatio;
    hide PreviewLaunch;
    OwnerIsLeaf(p, owner);
    FocusedOwnerSound(p, owner);
    var launch := PreviewLaunch(path, if owner in p.paneIds then p.paneIds[owner] else "");
    var q := p.(tree := SetFocused(p.tree, owner));
    var (p1, leaf) := SplitPane(q, deps, Horizontal, launch, m);
    SplitSound(q, deps, Horizontal, launch, m);
    if leaf == INVALID_LEAF {
      FocusSound(p1, if p.tree.focused == INVALID_LEAF then owner else p.tree.focused);
    } else {
      PlacedSound(p1, leaf, owner, ratio);
    }
  }

  lemma OwnerIsLeaf(p: Panes, owner: LeafId)
    requires Sound(p) && owner in p.hosts
    ensures owner in LeafSet(p.tree) && p.tree != EMPTY
  {
    hide WellFormed;
    assert owner in p.hosts.Keys;
  }

  lemma FocusedOwnerSound(p: Panes, owner: LeafId)
    requires Sound(p) && p.tree != EMPTY
    ensures Sound(p.(tree := SetFocused(p.tree, owner))) && LeafSet(SetFocused(p.tree, owner)) == LeafSet(p.tree)
  {
    SetFocusedLaw(p.tree, owner);
    hide WellFormed;
    hide Backed;
    hide NamedIds;
    hide Injective;
    hide SetFocused;
    SameLeavesSound(p, p.(tree := SetFocused(p.tree, owner)));
  }

  lemma PlacedSound(p1: Panes, leaf: LeafId, owner: LeafId, ratio: real)
    requires Sound(p1) && leaf in LeafSet(p1.tree) && owner in LeafSet(p1.tree)
    ensures Sound(UpdateFocus(p1.(tree := SetParentRatio(p1.tree, leaf, ratio), previewLeaf := leaf,
                                  previewOwner := owner), owner))
  {
    var q := p1.(tree := SetParentRatio(p1.tree, leaf, ratio));
    assert WellFormed(p1.tree) && leaf != INVALID_LEAF;
    ParentRatioLaw(p1.tree, leaf, ratio);
    hide WellFormed;
    hide SetParentRatio;
    SameLeavesSound(p1, q);
    PreviewSet(q, leaf, owner);
    hide Sound;
    FocusSound(q.(previewLeaf := leaf, previewOwner := owner), owner);
    hide UpdateFocus;
  }

  lemma PreviewSet(p: Panes, leaf: LeafId, owner: LeafId)
    requires Sound(p) && leaf in LeafSet(p.tree) && owner in LeafSet(p.tree) && leaf != INVALID_LEAF
    ensures Sound(p.(previewLeaf := leaf, previewOwner := owner))
  {
    hide WellFormed;
    hide Injective;
    hide LeafSet;
  }
}
