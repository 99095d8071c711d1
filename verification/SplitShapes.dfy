/** Where in the tree splitting, closing and resizing act: a node with a hole stands for
    all the rest, which stays exactly as it is. */
module SplitShapes {
  import opened Identifiers
  import opened SplitTrees
  import opened PaneModel

  /// A node with one subtree cut out.
  datatype Around =
    | Hole
    | InFirst(direction: Direction, ratio: real, around: Around, second: Node)
    | InSecond(direction: Direction, ratio: real, first: Node, around: Around)

  /// The node with n put into the hole.
  function Fill(c: Around, n: Node): Node {
    match c
    case Hole => n
    case InFirst(d, r, a, second) => Split(d, r, Fill(a, n), second)
    case InSecond(d, r, first, a) => Split(d, r, first, Fill(a, n))
  }

  ghost predicate NotAround(c: Around, id: LeafId) {
    match c
    case Hole => true
    case InFirst(_, _, a, second) => id !in Leaves(second) && NotAround(a, id)
    case InSecond(_, _, first, a) => id !in Leaves(first) && NotAround(a, id)
  }

  /// Every leaf is in some place.
  lemma {:induction false} PlaceOf(n: Node, id: LeafId) returns (c: Around)
    requires id in Leaves(n)
    ensures n == Fill(c, Leaf(id))
  {
    match n
    case Leaf(_) => c := Hole;
    case Split(d, r, a, b) =>
      if id in Leaves(a) {
        c := PlaceOf(a, id);
        c := InFirst(d, r, c, b);
      } else {
        c := PlaceOf(b, id);
        c := InSecond(d, r, a, c);
      }
  }

  lemma {:induction false} FilledHas(c: Around, n: Node, id: LeafId)
    requires id in Leaves(n)
    ensures id in Leaves(Fill(c, n))
  {
    match c
    case Hole =>
    case InFirst(_, _, a, _) => FilledHas(a, n, id);
    case InSecond(_, _, _, a) => FilledHas(a, n, id);
  }

  lemma {:induction false} OnlyInHole(c: Around, n: Node, id: LeafId)
    requires Distinct(Leaves(Fill(c, n))) && id in Leaves(n)
    ensures NotAround(c, id)
  {
    match c
    case Hole =>
    case InFirst(_, _, a, second) =>
      FilledHas(a, n, id);
      DistinctParts(Leaves(Fill(a, n)), Leaves(second));
      OnlyInHole(a, n, id);
    case InSecond(_, _, first, a) =>
      FilledHas(a, n, id);
      DistinctParts(Leaves(first), Leaves(Fill(a, n)));
      OnlyInHole(a, n, id);
  }

  // ---------------------------------------------------------------------------
  // One node

  lemma {:induction false} SplitAt(c: Around, id: LeafId, dir: Direction, newId: LeafId)
    requires NotAround(c, id)
    ensures SplitNode(Fill(c, Leaf(id)), id, dir, newId) == Fill(c, Split(dir, 0.5, Leaf(id), Leaf(newId)))
  {
    match c
    case Hole =>
    case InFirst(_, _, a, _) =>
      FilledHas(a, Leaf(id), id);
      SplitAt(a, id, dir, newId);
    case InSecond(_, _, _, a) => SplitAt(a, id, dir, newId);
  }

  /// A split of the leaf and its sibling, on whichever side.
  function Siblings(dir: Direction, ratio: real, id: LeafId, sibling: Node, first: bool): Node {
    if first then Split(dir, ratio, Leaf(id), sibling) else Split(dir, ratio, sibling, Leaf(id))
  }

  /// Every leaf but a lone one has a sibling.
  lemma {:induction false} SiblingOf(n: Node, id: LeafId)
    returns (c: Around, dir: Direction, ratio: real, sibling: Node, first: bool)
    requires n.Split? && id in Leaves(n)
    ensures n == Fill(c, Siblings(dir, ratio, id, sibling, first))
  {
    match n
    case Split(d, r, a, b) =>
      if id in Leaves(a) {
        if a.Leaf? {
          return Hole, d, r, b, true;
        }
        c, dir, ratio, sibling, first := SiblingOf(a, id);
        c := InFirst(d, r, c, b);
      } else {
        if b.Leaf? {
          return Hole, d, r, a, false;
        }
        c, dir, ratio, sibling, first := SiblingOf(b, id);
        c := InSecond(d, r, a, c);
      }
  }

  lemma {:induction false} CloseAt(c: Around, dir: Direction, ratio: real, id: LeafId, sibling: Node, first: bool)
    requires NotAround(c, id) && id !in Leaves(sibling)
    ensures var n := Fill(c, Siblings(dir, ratio, id, sibling, first));
            RemoveNode(n, id) == Some(Fill(c, sibling)) && HeirOf(n, id) == Leaves(sibling)[0]
  {
    var s := Siblings(dir, ratio, id, sibling, first);
    assert id in Leaves(s);
    match c
    case Hole =>
    case InFirst(_, _, a, _) =>
      FilledHas(a, s, id);
      CloseAt(a, dir, ratio, id, sibling, first);
    case InSecond(_, _, _, a) =>
      FilledHas(a, s, id);
      CloseAt(a, dir, ratio, id, sibling, first);
  }

  lemma {:induction false} NoLeafNoChange(n: Node, id: LeafId, ratio: real)
    requires id !in Leaves(n)
    ensures SetNodeRatio(n, id, ratio) == n
  {
    match n
    case Leaf(_) =>
    case Split(_, _, a, b) =>
      NoLeafNoChange(a, id, ratio);
      NoLeafNoChange(b, id, ratio);
  }

  lemma {:induction false} ResizeAt(c: Around, dir: Direction, was: real, id: LeafId, sibling: Node, first: bool,
                                    ratio: real)
    requires NotAround(c, id) && id !in Leaves(sibling)
    ensures SetNodeRatio(Fill(c, Siblings(dir, was, id, sibling, first)), id, ratio) ==
              Fill(c, Siblings(dir, ClampRatio(ratio), id, sibling, first))
  {
    var s := Siblings(dir, was, id, sibling, first);
    assert id in Leaves(s);
    match c
    case Hole =>
    case InFirst(_, _, a, second) =>
      FilledHas(a, s, id);
      NoLeafNoChange(second, id, ratio);
      ResizeAt(a, dir, was, id, sibling, first, ratio);
    case InSecond(_, _, left, a) =>
      FilledHas(a, s, id);
      NoLeafNoChange(left, id, ratio);
      ResizeAt(a, dir, was, id, sibling, first, ratio);
  }

  // ---------------------------------------------------------------------------
  // Whole trees

  /// Splitting a leaf puts an even split of it and the new leaf, in the direction asked
  /// for, in its place; nothing else of the tree changes.
  lemma SplitShape(t: SplitTree, c: Around, id: LeafId, dir: Direction)
    requires WellFormed(t) && t.root.value == Fill(c, Leaf(id))
    ensures var (t', leaf) := SplitLeaf(t, id, dir);
            if !ValidIdentifier(t.nextId) then (t', leaf) == (t, INVALID_LEAF)
            else
              && leaf == t.nextId && t'.nextId == t.nextId + 1 && t'.focused == t.focused
              && t'.root == Some(Fill(c, Split(dir, 0.5, Leaf(id), Leaf(leaf))))
  {
    FilledHas(c, Leaf(id), id);
    OnlyInHole(c, Leaf(id), id);
    SplitAt(c, id, dir, t.nextId);
  }

  /// Closing a leaf puts its sibling in the place of their split, whatever the sibling is;
  /// a focus on the leaf goes to the sibling's first leaf in spatial order.
  lemma CloseShape(t: SplitTree, c: Around, dir: Direction, ratio: real, id: LeafId, sibling: Node, first: bool)
    requires WellFormed(t) && t.root.value == Fill(c, Siblings(dir, ratio, id, sibling, first))
    ensures CloseLeaf(t, id) == (t.(root := Some(Fill(c, sibling)),
                                    focused := if t.focused == id then Leaves(sibling)[0] else t.focused), true)
  {
    var s := Siblings(dir, ratio, id, sibling, first);
    assert id in Leaves(s);
    FilledHas(c, s, id);
    OnlyInHole(c, s, id);
    SiblingsDiffer(c, dir, ratio, id, sibling, first);
    CloseAt(c, dir, ratio, id, sibling, first);
    FilledMany(c, s);
  }

  lemma {:induction false} FilledMany(c: Around, n: Node)
    ensures |Leaves(Fill(c, n))| >= |Leaves(n)|
  {
    match c
    case Hole =>
    case InFirst(_, _, a, _) => FilledMany(a, n);
    case InSecond(_, _, _, a) => FilledMany(a, n);
  }

  lemma {:induction false} FilledDistinct(c: Around, n: Node)
    requires Distinct(Leaves(Fill(c, n)))
    ensures Distinct(Leaves(n))
  {
    match c
    case Hole =>
    case InFirst(_, _, a, second) =>
      DistinctParts(Leaves(Fill(a, n)), Leaves(second));
      FilledDistinct(a, n);
    case InSecond(_, _, first, a) =>
      DistinctParts(Leaves(first), Leaves(Fill(a, n)));
      FilledDistinct(a, n);
  }

  lemma SiblingsDiffer(c: Around, dir: Direction, ratio: real, id: LeafId, sibling: Node, first: bool)
    requires Distinct(Leaves(Fill(c, Siblings(dir, ratio, id, sibling, first))))
    ensures id !in Leaves(sibling)
  {
    FilledDistinct(c, Siblings(dir, ratio, id, sibling, first));
    assert Leaves(Leaf(id)) == [id];
    if first { DistinctParts([id], Leaves(sibling)); } else { DistinctParts(Leaves(sibling), [id]); }
  }

  /// Setting the ratio above a leaf changes that split's ratio alone, kept in range.
  lemma ResizeShape(t: SplitTree, c: Around, dir: Direction, was: real, id: LeafId, sibling: Node, first: bool,
                    ratio: real)
    requires WellFormed(t) && t.root.value == Fill(c, Siblings(dir, was, id, sibling, first))
    ensures exists r :: && SetParentRatio(t, id, ratio) ==
                             t.(root := Some(Fill(c, Siblings(dir, r, id, sibling, first))))
                        && 0.1 <= r <= 0.9 && (0.1 <= ratio <= 0.9 ==> r == ratio)
                        && (ratio < 0.1 ==> r == 0.1) && (0.9 < ratio ==> r == 0.9)
  {
    var s := Siblings(dir, was, id, sibling, first);
    assert id in Leaves(s);
    OnlyInHole(c, s, id);
    SiblingsDiffer(c, dir, was, id, sibling, first);
    ResizeAt(c, dir, was, id, sibling, first, ratio);
    var r := ClampRatio(ratio);
    assert SetParentRatio(t, id, ratio) == t.(root := Some(Fill(c, Siblings(dir, r, id, sibling, first))));
  }

  /// A tree that is read back keeps its focus, or has it on the first leaf when the saved
  /// one is not there, and hands out no identifier that a leaf has.
  lemma RestoredTree(saved: SplitTree)
    requires Restore(saved).Some?
    ensures var t := Restore(saved).value;
            && (saved.focused in TreeLeaves(t) ==> t.focused == saved.focused)
            && (saved.focused !in TreeLeaves(t) ==> t.focused == TreeLeaves(t)[0])
            && (forall id :: id in TreeLeaves(t) ==> id < t.nextId)
            && ((forall id :: id in TreeLeaves(t) ==> id < saved.nextId) && saved.nextId <= LIMIT ==>
                  t.nextId == saved.nextId)
  {
    var root := RestoreNode(saved.root.value).value;
    assert MaxLeaf(root) in Leaves(root);
  }

  // ---------------------------------------------------------------------------
  // Round the leaves

  /// So many steps from leaf to next leaf.
  function Onward(t: SplitTree, id: LeafId, k: nat): LeafId {
    if k == 0 then id else NextLeafAfter(t, Onward(t, id, k - 1))
  }

  /// The place k places further on; after the last comes the first.
  function Place(i: nat, k: nat, n: nat): (j: nat)
    requires i < n && k <= n
    ensures j < n
  {
    if i + k < n then i + k else i + k - n
  }

  /// Stepping on visits the leaves in spatial order, and from the last one the first
  /// again; as many steps as there are leaves lead back.
  lemma {:induction false} OnwardVisits(t: SplitTree, i: nat, k: nat)
    requires WellFormed(t) && i < |TreeLeaves(t)| && |TreeLeaves(t)| >= 2 && k <= |TreeLeaves(t)|
    ensures Onward(t, TreeLeaves(t)[i], k) == TreeLeaves(t)[Place(i, k, |TreeLeaves(t)|)]
  {
    hide WellFormed;
    hide NextLeafAfter;
    var ids := TreeLeaves(t);
    if k > 0 {
      OnwardVisits(t, i, k - 1);
      NextAt(t, Place(i, k - 1, |ids|));
    }
  }

  lemma Wrapped(i: nat, n: nat)
    requires i < n
    ensures (i + 1) % n == if i + 1 == n then 0 else i + 1
  {}

  lemma NextAt(t: SplitTree, i: nat)
    requires WellFormed(t) && i < |TreeLeaves(t)| && |TreeLeaves(t)| >= 2
    ensures NextLeafAfter(t, TreeLeaves(t)[i]) == TreeLeaves(t)[Place(i, 1, |TreeLeaves(t)|)]
  {
    Wrapped(i, |TreeLeaves(t)|);
  }

  /// Swapping exchanges the focused leaf with the one at the next place, the first after
  /// the last; the others stay, and so does the place of the focus.
  lemma SwapsNeighbours(p: Panes, deps: Deps, i: nat)
    requires WellFormed(p.tree) && deps.allowLocalLayout
    requires i < |TreeLeaves(p.tree)| && |TreeLeaves(p.tree)| >= 2 && TreeLeaves(p.tree)[i] == p.tree.focused
    ensures var (q, ok) := SwapWithNext(p, deps);
            var ids, ids' := TreeLeaves(p.tree), TreeLeaves(q.tree);
            var j := Place(i, 1, |ids|);
            && ok && |ids'| == |ids| && ids'[i] == ids[j] && ids'[j] == ids[i] && q.tree.focused == ids'[i]
            && forall k :: 0 <= k < |ids| && k != i && k != j ==> ids'[k] == ids[k]
  {
    NextAt(p.tree, i);
    var ids := TreeLeaves(p.tree);
    var j := Place(i, 1, |ids|);
    assert ids[i] != ids[j] && ids[j] in ids && 0 <= ids[j];
    hide NextLeafAfter;
    SwapNodeLeaves(p.tree.root.value, ids[i], ids[j]);
  }
}
