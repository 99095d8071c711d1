/** Whether the pane that a zoom shows is the one with the keyboard, in every state. */
module PaneZoom {
  import opened Identifiers
  import opened SplitTrees
  import opened PaneNames
  import opened PaneModel
  import opened PaneInvariants
  import opened PaneSound

  /// No zoom hides the focused pane.
  predicate Visible(p: Panes) {
    p.zoomed ==> p.zoomedLeaf == p.tree.focused
  }

  /// Zoom and focus are the same in both states.
  predicate SameView(p: Panes, q: Panes) {
    q.zoomed == p.zoomed && q.zoomedLeaf == p.zoomedLeaf && q.tree.focused == p.tree.focused
  }

  lemma ShownExactly(p: Panes)
    requires Sound(p)
    ensures ZoomShown(p) <==> Visible(p)
  {
    hide Backed;
    hide WellFormed;
    hide NamedIds;
    hide Injective;
  }

  /// A focus move carries the zoom to a hosted pane, and leaves it behind when the
  /// pane has no host.
  lemma FocusView(p: Panes, id: LeafId)
    requires Sound(p) && Visible(p)
    ensures Visible(UpdateFocus(p, id)) <==>
              !(p.zoomed && id != p.tree.focused && id in LeafSet(p.tree) && id !in p.hosts)
  {
    HostedIsLeaf(p, id);
    hide Sound;
    hide LeafSet;
    InLeafSet(p.tree, id);
    hide TreeLeaves;
  }

  lemma HostedIsLeaf(p: Panes, id: LeafId)
    requires Sound(p)
    ensures id in p.hosts ==> id in LeafSet(p.tree)
  {
    if id in p.hosts {
      OwnerIsLeaf(p, id);
    }
  }

  lemma InLeafSet(t: SplitTree, id: LeafId)
    ensures id in LeafSet(t) <==> id in TreeLeaves(t)
  {}

  lemma SplitView(p: Panes, deps: Deps, dir: Direction, launch: Launch, m: HostMaker)
    requires Sound(p)
    ensures var (q, leaf) := SplitPane(p, deps, dir, launch, m);
            if leaf == INVALID_LEAF then SameView(p, q)
            else Visible(q) && q.tree.focused == leaf && p.hosts.Keys + {leaf} <= q.hosts.Keys
  {
    var (tree, leaf) := SplitLeaf(p.tree, p.tree.focused, dir);
    if deps.allowLocalLayout && p.tree.focused != INVALID_LEAF && leaf != INVALID_LEAF {
      var p0 := p.(tree := tree);
      var (p1, ok) := CreateHost(p0, deps, leaf, Completed(launch, deps), false, false, m);
      assert p.tree != EMPTY;
      SplitLeafLaw(p.tree, p.tree.focused, dir);
      assert p.tree.focused in TreeLeaves(p.tree);
      CloseLeafLaw(tree, leaf);
      InLeafSet(p.tree, p.tree.focused);
      InLeafSet(tree, leaf);
      CreateOnlyTables(p0, deps, leaf, Completed(launch, deps), false, false, m);
      CreatesAt(p0, deps, leaf, Completed(launch, deps), m);
      hide Sound;
      hide WellFormed;
      hide LeafSet;
      hide SplitLeaf;
      hide CreateHost;
      hide Completed;
      if ok {
        ArrivesVisibly(p1, leaf);
        assert SplitPane(p, deps, dir, launch, m) == (UpdateFocus(p1, leaf), leaf);
      } else {
        assert SplitPane(p, deps, dir, launch, m) == (p1.(tree := CloseLeaf(tree, leaf).0), INVALID_LEAF);
      }
      hide SplitPane;
      hide UpdateFocus;
    }
  }

  lemma CreatesAt(p: Panes, deps: Deps, id: LeafId, launch: Launch, m: HostMaker)
    ensures var (q, ok) := CreateHost(p, deps, id, launch, false, false, m);
            ok ==> p.hosts.Keys + {id} <= q.hosts.Keys
  {
    WithPaneIdOnly(p, id);
    hide StartsAs;
    hide WithPaneId;
  }

  /// A focus move to another hosted leaf shows it, whatever was shown before.
  lemma ArrivesVisibly(p: Panes, id: LeafId)
    requires id in p.hosts && id in TreeLeaves(p.tree) && id != p.tree.focused
    ensures Visible(UpdateFocus(p, id)) && UpdateFocus(p, id).tree.focused == id && UpdateFocus(p, id).hosts == p.hosts
  {}

  lemma CloseView(p: Panes, deps: Deps, id: LeafId)
    requires Sound(p) && Visible(p)
    ensures Visible(ClosePane(p, deps, id).0)
  {
    if id in p.hosts {
      HostedIsLeaf(p, id);
      CloseLeafLaw(p.tree, id);
      hide Sound;
      hide CloseLeaf;
      hide LeafSet;
      hide WellFormed;
    }
  }

  lemma SwapView(p: Panes, deps: Deps)
    requires Sound(p) && ZoomShown(p)
    ensures Visible(SwapWithNext(p, deps).0) <==> !(p.zoomed && deps.allowLocalLayout)
  {
    if p.tree != EMPTY {
      NextLeafLaw(p.tree);
    }
    assert p.tree == EMPTY ==> TreeLeaves(p.tree) == [];
    hide NextLeafAfter;
    hide WellFormed;
    hide Backed;
    hide NamedIds;
  }

  lemma ToggleView(p: Panes)
    requires Visible(p)
    ensures Visible(ToggleZoom(p))
  {}

  lemma HideView(p: Panes, deps: Deps)
    requires Sound(p) && Visible(p)
    ensures Visible(HidePreview(p, deps))
  {
    hide Sound;
    hide ClosePane;
    hide UpdateFocus;
    var p0 := p.(previewLeaf := INVALID_LEAF, previewOwner := INVALID_LEAF);
    PreviewForgotten(p, p0);
    CloseView(p0, deps, p.previewLeaf);
    CloseSound(p0, deps, p.previewLeaf);
    FocusView(ClosePane(p0, deps, p.previewLeaf).0, p.previewOwner);
  }

  lemma ShowView(p: Panes, deps: Deps, owner: LeafId, ratio: real, path: string, m: HostMaker)
    requires Sound(p) && Visible(p)
    ensures Visible(ShowPreview(p, deps, owner, ratio, path, m).0)
  {
    hide Sound;
    hide SplitOffPreview;
    PreviewForgotten(p, PreviewChecked(p));
    if owner in p.hosts {
      SplitOffView(PreviewChecked(p), deps, owner, ratio, path, m);
    }
  }

  lemma FocusNamesLeaf(p: Panes)
    requires Sound(p) && p.tree != EMPTY
    ensures p.tree.focused in LeafSet(p.tree) && p.tree.focused != INVALID_LEAF
  {
    hide Backed;
    hide Injective;
  }

  /// The focus back on the leaf that had it, with the zoom as it was.
  lemma BackVisibly(p: Panes, p1: Panes, id: LeafId)
    requires Visible(p) && p1.zoomed == p.zoomed && p1.zoomedLeaf == p.zoomedLeaf
    requires id == p.tree.focused && id in LeafSet(p1.tree)
    ensures Visible(UpdateFocus(p1, id))
  {
    InLeafSet(p1.tree, id);
    hide LeafSet;
    hide TreeLeaves;
  }

  lemma PlacedVisibly(p1: Panes, leaf: LeafId, owner: LeafId, ratio: real)
    requires Visible(p1) && owner in p1.hosts && owner in LeafSet(p1.tree)
    ensures Visible(UpdateFocus(p1.(tree := SetParentRatio(p1.tree, leaf, ratio), previewLeaf := leaf,
                                    previewOwner := owner), owner))
  {
    InLeafSet(p1.tree, owner);
    var p2 := p1.(tree := SetParentRatio(p1.tree, leaf, ratio), previewLeaf := leaf, previewOwner := owner);
    assert TreeLeaves(p2.tree) == TreeLeaves(p1.tree) && p2.tree.focused == p1.tree.focused;
    hide SetParentRatio;
    hide TreeLeaves;
    hide LeafSet;
    if owner != p2.tree.focused {
      ArrivesVisibly(p2, owner);
    }
    hide SetFocused;
  }

  lemma SplitOffView(p: Panes, deps: Deps, owner: LeafId, ratio: real, path: string, m: HostMaker)
    requires Sound(p) && Visible(p) && owner in p.hosts
    ensures Visible(SplitOffPreview(p, deps, owner, ratio, path, m).0)
  {
    OwnerIsLeaf(p, owner);
    FocusedOwnerSound(p, owner);
    FocusNamesLeaf(p);
    SplitSound(p.(tree := SetFocused(p.tree, owner)), deps, Horizontal,
               PreviewLaunch(path, if owner in p.paneIds then p.paneIds[owner] else ""), m);
    InLeafSet(p.tree, owner);
    hide Sound;
    hide LeafSet;
    hide SplitPane;
    hide SetParentRatio;
    hide PreviewLaunch;
    var launch := PreviewLaunch(path, if owner in p.paneIds then p.paneIds[owner] else "");
    var q := p.(tree := SetFocused(p.tree, owner));
    var (p1, leaf) := SplitPane(q, deps, Horizontal, launch, m);
    SplitView(q, deps, Horizontal, launch, m);
    if leaf == INVALID_LEAF {
      BackVisibly(p, p1, p.tree.focused);
    } else {
      PlacedVisibly(p1, leaf, owner, ratio);
    }
    hide UpdateFocus;
  }

  /// A zoom outlives a close exactly when another pane was closed and several are left;
  /// then it shows the same pane as before.
  lemma ZoomOutlivesClose(p: Panes, deps: Deps, id: LeafId)
    requires WellFormed(p.tree) && ClosePane(p, deps, id).1
    ensures var q := ClosePane(p, deps, id).0;
            && (q.zoomed <==> p.zoomed && id != p.zoomedLeaf && |TreeLeaves(q.tree)| >= 2)
            && (q.zoomed ==> q.zoomedLeaf == p.zoomedLeaf)
            && (p.zoomed && !q.zoomed ==> q.zoomedLeaf == INVALID_LEAF)
  {
    CloseLeafLaw(p.tree, id);
    hide CloseLeaf;
    hide WellFormed;
    hide Forget;
  }
}
