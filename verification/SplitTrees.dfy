/** The split tree of one tab: leaf identifiers, a focused leaf and a counter.
    Pixel rectangles and divider identifiers are not part of this model. */
module SplitTrees {
  import opened Identifiers

  type LeafId = int
  const INVALID_LEAF: LeafId := -1
  const MIN_RATIO: real := 0.1
  const MAX_RATIO: real := 0.9

  datatype Direction = Vertical | Horizontal

  datatype Node =
    | Leaf(id: LeafId)
    | Split(direction: Direction, ratio: real, first: Node, second: Node)

  /// Leaves in spatial order.
  function Leaves(n: Node): (s: seq<LeafId>)
    ensures |s| > 0
  {
    match n
    case Leaf(id) => [id]
    case Split(_, _, a, b) => Leaves(a) + Leaves(b)
  }

  function FirstLeaf(n: Node): (id: LeafId)
    ensures id == Leaves(n)[0]
  {
    match n
    case Leaf(id) => id
    case Split(_, _, a, _) => FirstLeaf(a)
  }

  /// Replaces the first leaf called id by a split of that leaf and a new one.
  function SplitNode(n: Node, id: LeafId, dir: Direction, newId: LeafId): Node {
    match n
    case Leaf(x) => if x == id then Split(dir, 0.5, n, Leaf(newId)) else n
    case Split(d, r, a, b) =>
      if id in Leaves(a) then Split(d, r, SplitNode(a, id, dir, newId), b)
      else Split(d, r, a, SplitNode(b, id, dir, newId))
  }

  /// Removes the first leaf called id; the parent split becomes the sibling.
  function RemoveNode(n: Node, id: LeafId): Option<Node> {
    match n
    case Leaf(x) => if x == id then None else Some(n)
    case Split(d, r, a, b) =>
      if id in Leaves(a) then
        match RemoveNode(a, id)
        case None => Some(b)
        case Some(a') => Some(Split(d, r, a', b))
      else
        match RemoveNode(b, id)
        case None => Some(a)
        case Some(b') => Some(Split(d, r, a, b'))
  }

  /// First leaf of the subtree that takes the place of a closed leaf's parent.
  function HeirOf(n: Node, id: LeafId): LeafId {
    match n
    case Leaf(_) => INVALID_LEAF
    case Split(_, _, a, b) =>
      if a == Leaf(id) then FirstLeaf(b)
      else if id in Leaves(a) then HeirOf(a, id)
      else if b == Leaf(id) then FirstLeaf(a)
      else HeirOf(b, id)
  }

  function SwapNode(n: Node, x: LeafId, y: LeafId): Node {
    match n
    case Leaf(id) => Leaf(if id == x then y else if id == y then x else id)
    case Split(d, r, a, b) => Split(d, r, SwapNode(a, x, y), SwapNode(b, x, y))
  }

  /// What reading back a saved node yields; None when an identifier is invalid.
  function RestoreNode(n: Node): (r: Option<Node>)
    ensures r.Some? ==> Leaves(r.value) == Leaves(n)
    ensures r.Some? <==> forall id :: id in Leaves(n) ==> ValidIdentifier(id)
  {
    match n
    case Leaf(id) => if ValidIdentifier(id) then Some(n) else None
    case Split(d, r, a, b) =>
      match (RestoreNode(a), RestoreNode(b))
      case (Some(a'), Some(b')) => Some(Split(d, ClampRatio(r), a', b'))
      case _ => None
  }

  function ClampRatio(r: real): real {
    if r < MIN_RATIO then MIN_RATIO else if MAX_RATIO < r then MAX_RATIO else r
  }

  ghost predicate RatiosInRange(n: Node) {
    match n
    case Leaf(_) => true
    case Split(_, r, a, b) => MIN_RATIO <= r <= MAX_RATIO && RatiosInRange(a) && RatiosInRange(b)
  }

  /// Sets the ratio of the split directly above a leaf.
  function SetNodeRatio(n: Node, id: LeafId, ratio: real): (r: Node)
    ensures Leaves(r) == Leaves(n)
    ensures RatiosInRange(n) ==> RatiosInRange(r)
  {
    match n
    case Leaf(_) => n
    case Split(d, q, a, b) =>
      if a == Leaf(id) || b == Leaf(id) then Split(d, ClampRatio(ratio), a, b)
      else Split(d, q, SetNodeRatio(a, id, ratio), SetNodeRatio(b, id, ratio))
  }

  function MaxLeaf(n: Node): (m: LeafId)
    ensures m in Leaves(n)
    ensures forall id :: id in Leaves(n) ==> id <= m
  {
    match n
    case Leaf(id) => id
    case Split(_, _, a, b) => Max(MaxLeaf(a), MaxLeaf(b))
  }

  // ---------------------------------------------------------------------------
  // The tree with its focus and counter

  datatype SplitTree = SplitTree(root: Option<Node>, nextId: int, focused: LeafId)

  const EMPTY := SplitTree(None, 0, INVALID_LEAF)

  function TreeLeaves(t: SplitTree): (s: seq<LeafId>)
    ensures t.root.None? <==> s == []
  {
    if t.root.None? then [] else Leaves(t.root.value)
  }

  ghost function LeafSet(t: SplitTree): set<LeafId> {
    Elements(TreeLeaves(t))
  }

  ghost predicate WellFormed(t: SplitTree) {
    && t.root.Some?
    && Distinct(TreeLeaves(t))
    && t.nextId <= LIMIT
    && (forall id :: id in TreeLeaves(t) ==> 0 <= id < t.nextId)
    && t.focused in TreeLeaves(t)
    && RatiosInRange(t.root.value)
  }

  function Reset(): SplitTree {
    SplitTree(Some(Leaf(0)), 1, 0)
  }

  /// The tree after splitting leaf id, with the new leaf; INVALID_LEAF on failure.
  function SplitLeaf(t: SplitTree, id: LeafId, dir: Direction): (SplitTree, LeafId) {
    if id !in TreeLeaves(t) || Allocate(t.nextId).None? then (t, INVALID_LEAF)
    else (t.(root := Some(SplitNode(t.root.value, id, dir, t.nextId)), nextId := t.nextId + 1), t.nextId)
  }

  function CloseLeaf(t: SplitTree, id: LeafId): (SplitTree, bool) {
    if |TreeLeaves(t)| <= 1 || id !in TreeLeaves(t) then (t, false)
    else (t.(root := RemoveNode(t.root.value, id),
             focused := if t.focused == id then HeirOf(t.root.value, id) else t.focused), true)
  }

  function SetFocused(t: SplitTree, id: LeafId): SplitTree {
    if id in TreeLeaves(t) then t.(focused := id) else t
  }

  function SwapLeaves(t: SplitTree, x: LeafId, y: LeafId): (SplitTree, bool) {
    if x == y then (t, true)
    else if x !in TreeLeaves(t) || y !in TreeLeaves(t) then (t, false)
    else (t.(root := Some(SwapNode(t.root.value, x, y)),
             focused := if t.focused == x then y else if t.focused == y then x else t.focused), true)
  }

  function SetParentRatio(t: SplitTree, id: LeafId, ratio: real): SplitTree {
    if t.root.None? then t else t.(root := Some(SetNodeRatio(t.root.value, id, ratio)))
  }

  function IndexOf(s: seq<LeafId>, id: LeafId): (i: nat)
    requires id in s
    ensures i < |s| && s[i] == id
    ensures forall j :: 0 <= j < i ==> s[j] != id
  {
    if s[0] == id then 0 else 1 + IndexOf(s[1..], id)
  }

  /// The next leaf in spatial order, wrapping around.
  function NextLeafAfter(t: SplitTree, id: LeafId): LeafId {
    var ids := TreeLeaves(t);
    if |ids| < 2 || id !in ids then INVALID_LEAF
    else ids[(IndexOf(ids, id) + 1) % |ids|]
  }

  /// Reading back a saved tree.
  function Restore(saved: SplitTree): Option<SplitTree> {
    if saved.root.None? then None
    else
      match RestoreNode(saved.root.value)
      case None => None
      case Some(root) =>
        Some(SplitTree(Some(root),
                       Clamp(saved.nextId, MaxLeaf(root) + 1, LIMIT),
                       if saved.focused in Leaves(root) then saved.focused else FirstLeaf(root)))
  }

  // ---------------------------------------------------------------------------
  // Splitting and closing

  /// The order with x placed directly after id.
  function InsertAfter(s: seq<LeafId>, id: LeafId, x: LeafId): seq<LeafId>
    requires id in s
  {
    var i := IndexOf(s, id);
    s[..i + 1] + [x] + s[i + 1..]
  }

  /// The order with the first occurrence of id left out.
  function Without(s: seq<LeafId>, id: LeafId): seq<LeafId>
    requires id in s
  {
    var i := IndexOf(s, id);
    s[..i] + s[i + 1..]
  }

  lemma IndexInAppend(s: seq<LeafId>, t: seq<LeafId>, id: LeafId)
    requires id in s + t
    ensures IndexOf(s + t, id) == if id in s then IndexOf(s, id) else |s| + IndexOf(t, id)
  {
    var i := IndexOf(s + t, id);
    if id in s {
      assert (s + t)[IndexOf(s, id)] == id;
      assert i < |s|;
    } else {
      assert (s + t)[|s| + IndexOf(t, id)] == id;
      assert t[i - |s|] == id;
    }
  }

  lemma InsertInAppend(s: seq<LeafId>, t: seq<LeafId>, id: LeafId, x: LeafId)
    requires id in s + t
    ensures InsertAfter(s + t, id, x) == if id in s then InsertAfter(s, id, x) + t else s + InsertAfter(t, id, x)
  {
    IndexInAppend(s, t, id);
  }

  lemma WithoutInAppend(s: seq<LeafId>, t: seq<LeafId>, id: LeafId)
    requires id in s + t
    ensures Without(s + t, id) == if id in s then Without(s, id) + t else s + Without(t, id)
  {
    IndexInAppend(s, t, id);
  }

  lemma InsertKeepsDistinct(s: seq<LeafId>, id: LeafId, x: LeafId)
    requires Distinct(s) && id in s && x !in s
    ensures Distinct(InsertAfter(s, id, x)) && |InsertAfter(s, id, x)| == |s| + 1
    ensures Elements(InsertAfter(s, id, x)) == Elements(s) + {x}
  {
    var i := IndexOf(s, id);
    var a, b := s[..i + 1], s[i + 1..];
    assert s == a + b;
    DistinctParts(a, b);
    forall y ensures y in InsertAfter(s, id, x) <==> y in s || y == x {
      assert y in s <==> y in a || y in b;
    }
    DistinctJoin(a, [x]);
    DistinctJoin(a + [x], b);
  }

  lemma DistinctJoin<T>(s: seq<T>, t: seq<T>)
    requires Distinct(s) && Distinct(t)
    requires forall x :: x in s ==> x !in t
    ensures Distinct(s + t)
  {
    forall i, j | 0 <= i < j < |s + t| ensures (s + t)[i] != (s + t)[j] {
      if i < |s| <= j {
        assert s[i] in s && t[j - |s|] in t;
      }
    }
  }

  lemma WithoutKeepsDistinct(s: seq<LeafId>, id: LeafId)
    requires Distinct(s) && id in s
    ensures Distinct(Without(s, id)) && |Without(s, id)| == |s| - 1
    ensures Elements(Without(s, id)) == Elements(s) - {id}
  {
    var i := IndexOf(s, id);
    var s' := Without(s, id);
    assert forall k :: 0 <= k < |s'| ==> s'[k] == s[if k < i then k else k + 1];
    assert forall k :: 0 <= k < |s| && k != i ==> s'[if k < i then k else k - 1] == s[k];
  }

  /// Splitting inserts the new leaf directly after the split one.
  lemma {:induction false} SplitNodeLeaves(n: Node, id: LeafId, dir: Direction, newId: LeafId)
    requires id in Leaves(n)
    ensures Leaves(SplitNode(n, id, dir, newId)) == InsertAfter(Leaves(n), id, newId)
    ensures RatiosInRange(n) ==> RatiosInRange(SplitNode(n, id, dir, newId))
  {
    match n
    case Leaf(_) =>
    case Split(d, r, a, b) =>
      InsertInAppend(Leaves(a), Leaves(b), id, newId);
      if id in Leaves(a) {
        SplitNodeLeaves(a, id, dir, newId);
      } else {
        SplitNodeLeaves(b, id, dir, newId);
      }
  }

  /// Removing a leaf deletes exactly its occurrence from the spatial order.
  lemma {:induction false} RemoveNodeLeaves(n: Node, id: LeafId)
    requires id in Leaves(n)
    ensures RemoveNode(n, id).None? <==> n == Leaf(id)
    ensures RemoveNode(n, id).Some? ==> Leaves(RemoveNode(n, id).value) == Without(Leaves(n), id)
    ensures RemoveNode(n, id).Some? && RatiosInRange(n) ==> RatiosInRange(RemoveNode(n, id).value)
  {
    match n
    case Leaf(_) =>
    case Split(d, r, a, b) =>
      WithoutInAppend(Leaves(a), Leaves(b), id);
      if id in Leaves(a) {
        RemoveNodeLeaves(a, id);
      } else {
        RemoveNodeLeaves(b, id);
      }
  }

  /// The heir of a closed leaf is another leaf of the tree.
  lemma {:induction false} HeirIsLeaf(n: Node, id: LeafId)
    requires id in Leaves(n) && n != Leaf(id) && Distinct(Leaves(n))
    ensures HeirOf(n, id) in Leaves(n) && HeirOf(n, id) != id
  {
    var Split(d, r, a, b) := n;
    DistinctParts(Leaves(a), Leaves(b));
    if a == Leaf(id) {
      assert FirstLeaf(b) in Leaves(b);
    } else if id in Leaves(a) {
      HeirIsLeaf(a, id);
    } else if b == Leaf(id) {
      assert FirstLeaf(a) in Leaves(a);
    } else {
      HeirIsLeaf(b, id);
    }
  }

  lemma DistinctParts<T>(s: seq<T>, t: seq<T>)
    requires Distinct(s + t)
    ensures Distinct(s) && Distinct(t)
    ensures forall x :: x in s ==> x !in t
  {
    forall i, j | 0 <= i < j < |s| ensures s[i] != s[j] {
      assert (s + t)[i] == s[i] && (s + t)[j] == s[j];
    }
    forall i, j | 0 <= i < j < |t| ensures t[i] != t[j] {
      assert (s + t)[|s| + i] == t[i] && (s + t)[|s| + j] == t[j];
    }
    forall i, j | 0 <= i < |s| && 0 <= j < |t| ensures s[i] != t[j] {
      assert (s + t)[i] == s[i] && (s + t)[|s| + j] == t[j];
    }
  }

  /// Closing the leaf a split has just made gives back the tree before the split.
  lemma {:induction false} CloseUndoesSplit(n: Node, id: LeafId, dir: Direction, newId: LeafId)
    requires id in Leaves(n) && newId !in Leaves(n)
    ensures RemoveNode(SplitNode(n, id, dir, newId), newId) == Some(n)
  {
    match n
    case Leaf(_) =>
    case Split(d, r, a, b) =>
      if id in Leaves(a) {
        SplitNodeLeaves(a, id, dir, newId);
        CloseUndoesSplit(a, id, dir, newId);
      } else {
        CloseUndoesSplit(b, id, dir, newId);
      }
  }

  /// Swapping permutes the spatial order at the two leaves and is its own inverse.
  lemma {:induction false} SwapNodeLeaves(n: Node, x: LeafId, y: LeafId)
    ensures |Leaves(SwapNode(n, x, y))| == |Leaves(n)|
    ensures forall i :: 0 <= i < |Leaves(n)| ==>
              Leaves(SwapNode(n, x, y))[i] ==
              (if Leaves(n)[i] == x then y else if Leaves(n)[i] == y then x else Leaves(n)[i])
    ensures SwapNode(SwapNode(n, x, y), x, y) == n
    ensures RatiosInRange(n) ==> RatiosInRange(SwapNode(n, x, y))
  {
    match n
    case Leaf(_) =>
    case Split(_, _, a, b) =>
      SwapNodeLeaves(a, x, y);
      SwapNodeLeaves(b, x, y);
  }

  /// A saved in-range tree is read back unchanged.
  lemma {:induction false} RestoreNodeIdentity(n: Node)
    requires RatiosInRange(n)
    requires forall id :: id in Leaves(n) ==> ValidIdentifier(id)
    ensures RestoreNode(n) == Some(n)
  {
    match n
    case Leaf(id) => assert id in Leaves(n);
    case Split(_, _, a, b) =>
      assert forall id :: id in Leaves(a) || id in Leaves(b) ==> id in Leaves(n);
      RestoreNodeIdentity(a);
      RestoreNodeIdentity(b);
  }

  // ---------------------------------------------------------------------------
  // Laws of the whole tree

  lemma SplitLeafLaw(t: SplitTree, id: LeafId, dir: Direction)
    requires WellFormed(t)
    ensures var (t', newId) := SplitLeaf(t, id, dir);
            if newId == INVALID_LEAF then t' == t
            else && WellFormed(t') && newId !in LeafSet(t) && t'.focused == t.focused
                 && LeafSet(t') == LeafSet(t) + {newId}
                 && |TreeLeaves(t')| == |TreeLeaves(t)| + 1
                 && CloseLeaf(t', newId) == (t.(nextId := t.nextId + 1), true)
  {
    var (t', newId) := SplitLeaf(t, id, dir);
    if newId != INVALID_LEAF {
      SplitNodeLeaves(t.root.value, id, dir, newId);
      InsertKeepsDistinct(TreeLeaves(t), id, newId);
      InElements(TreeLeaves(t));
      InElements(TreeLeaves(t'));
      CloseUndoesSplit(t.root.value, id, dir, newId);
    }
  }

  lemma CloseLeafLaw(t: SplitTree, id: LeafId)
    requires WellFormed(t)
    ensures var (t', ok) := CloseLeaf(t, id);
            && (ok <==> |TreeLeaves(t)| > 1 && id in LeafSet(t))
            && (!ok ==> t' == t)
            && (ok ==> && WellFormed(t') && LeafSet(t') == LeafSet(t) - {id}
                       && |TreeLeaves(t')| == |TreeLeaves(t)| - 1
                       && (t.focused != id ==> t'.focused == t.focused))
  {
    var (t', ok) := CloseLeaf(t, id);
    InElements(TreeLeaves(t));
    if ok {
      RemoveNodeLeaves(t.root.value, id);
      HeirIsLeaf(t.root.value, id);
      WithoutKeepsDistinct(TreeLeaves(t), id);
      InElements(TreeLeaves(t'));
    }
  }

  lemma SwapLeavesLaw(t: SplitTree, x: LeafId, y: LeafId)
    requires WellFormed(t)
    ensures var (t', ok) := SwapLeaves(t, x, y);
            && (!ok ==> t' == t)
            && WellFormed(t') && LeafSet(t') == LeafSet(t)
            && |TreeLeaves(t')| == |TreeLeaves(t)|
            && (ok ==> SwapLeaves(t', x, y) == (t, true))
  {
    var (t', ok) := SwapLeaves(t, x, y);
    if ok && x != y {
      SwapNodeLeaves(t.root.value, x, y);
      var s, s' := TreeLeaves(t), TreeLeaves(t');
      var i, j := IndexOf(s, x), IndexOf(s, y);
      assert s'[i] == y && s'[j] == x;
      forall id ensures id in s' <==> id in s {
        if id in s {
          var k := IndexOf(s, id);
          if id != x && id != y { assert s'[k] == id; }
        }
        if id in s' {
          var k := IndexOf(s', id);
          assert s[k] in s;
        }
      }
    }
  }

  lemma RestoreLaw(saved: SplitTree)
    ensures Restore(saved).Some? && Distinct(TreeLeaves(saved)) ==> WellFormed(Restore(saved).value)
    ensures Restore(saved).Some? ==> TreeLeaves(Restore(saved).value) == TreeLeaves(saved)
    ensures WellFormed(saved) ==> Restore(saved) == Some(saved)
  {
    if Restore(saved).Some? {
      ClampedRatios(saved.root.value);
    }
    if WellFormed(saved) {
      RestoreNodeIdentity(saved.root.value);
    }
  }

  lemma {:induction false} ClampedRatios(n: Node)
    ensures RestoreNode(n).Some? ==> RatiosInRange(RestoreNode(n).value)
  {
    match n
    case Leaf(_) =>
    case Split(_, _, a, b) =>
      ClampedRatios(a);
      ClampedRatios(b);
  }
}
