/** Session identifiers: non-negative, strictly below a limit, handed out by a
    counter that may reach the limit but never passes it. */
module Identifiers {

  datatype Option<+T> = None | Some(value: T)

  /// The largest value of a 32-bit signed integer.
  const LIMIT: int := 0x7fff_ffff

  predicate ValidIdentifier(id: int) {
    0 <= id < LIMIT
  }

  /// The identifier the counter yields next; the counter then advances by one.
  function Allocate(next: int): (r: Option<int>)
    ensures r.Some? <==> ValidIdentifier(next)
    ensures r.Some? ==> r.value == next
  {
    if ValidIdentifier(next) then Some(next) else None
  }

  /// The identifiers handed out to the first k requests; a refused request gets none.
  function HandedOut(next: int, k: nat): seq<int>
    decreases k
  {
    if k == 0 then []
    else
      match Allocate(next)
      case None => HandedOut(next, k - 1)
      case Some(id) => [id] + HandedOut(next + 1, k - 1)
  }

  /// Over any run of requests the identifiers are valid and distinct, none is left
  /// out, and requests are refused only once the limit is reached.
  lemma {:induction false} HandedOutLaw(next: int, k: nat)
    requires 0 <= next <= LIMIT
    ensures var ids := HandedOut(next, k);
            && |ids| == (if k <= LIMIT - next then k else LIMIT - next)
            && (forall i :: 0 <= i < |ids| ==> ids[i] == next + i && ValidIdentifier(ids[i]))
            && Distinct(ids)
    decreases k
  {
    if k > 0 {
      HandedOutLaw(if next < LIMIT then next + 1 else next, k - 1);
    }
  }

  function Clamp(x: int, lo: int, hi: int): (r: int)
    requires lo <= hi
    ensures lo <= r <= hi
    ensures lo <= x <= hi ==> r == x
  {
    if x < lo then lo else if hi < x then hi else x
  }

  /// No value occurs twice.
  ghost predicate Distinct<T>(s: seq<T>) {
    forall i, j :: 0 <= i < j < |s| ==> s[i] != s[j]
  }

  lemma SameIndex<T>(s: seq<T>, i: nat, j: nat)
    requires Distinct(s) && i < |s| && j < |s| && s[i] == s[j]
    ensures i == j
  {}

  function Max(a: int, b: int): int {
    if a < b then b else a
  }

  /// The values of a sequence, as a set.
  ghost function Elements<T>(s: seq<T>): set<T> {
    set x | x in s
  }

  lemma InElements<T>(s: seq<T>)
    ensures forall x :: x in s <==> x in Elements(s)
  {}

  lemma ElementsOfAppend<T>(s: seq<T>, t: seq<T>)
    ensures Elements(s + t) == Elements(s) + Elements(t)
  {
    forall x ensures x in s + t <==> x in s || x in t {}
  }

  lemma NothingLeft<T>(a: set<T>, b: set<T>)
    ensures a - b == {} <==> a <= b
  {
    if a - b == {} {
      forall x | x in a ensures x in b {
        assert x !in a - b;
      }
    }
  }

  lemma {:induction false} DistinctCount<T>(s: seq<T>)
    requires Distinct(s)
    ensures |Elements(s)| == |s|
  {
    if s == [] {
    } else {
      var front := s[..|s| - 1];
      DistinctCount(front);
      assert s == front + [s[|s| - 1]];
      ElementsOfAppend(front, [s[|s| - 1]]);
      assert Elements(s) == Elements(front) + {s[|s| - 1]};
    }
  }

  /// A sequence with position i left out.
  lemma DroppedAt<T>(s: seq<T>, i: nat)
    requires i < |s|
    ensures var rest := s[..i] + s[i + 1..]; |rest| == |s| - 1 && forall k :: 0 <= k < |rest| ==>
              rest[k] == s[if k < i then k else k + 1]
  {}

  lemma DroppedDistinct<T>(s: seq<T>, i: nat)
    requires i < |s| && Distinct(s)
    ensures Distinct(s[..i] + s[i + 1..])
  {
    DroppedAt(s, i);
  }

  lemma DroppedStill<T>(s: seq<T>, i: nat, x: T)
    requires i < |s| && x in s && x != s[i]
    ensures x in s[..i] + s[i + 1..]
  {
    var a :| 0 <= a < |s| && s[a] == x;
    assert (s[..i] + s[i + 1..])[if a < i then a else a - 1] == x;
  }

  lemma DroppedGone<T>(s: seq<T>, i: nat)
    requires i < |s| && Distinct(s)
    ensures s[i] !in s[..i] + s[i + 1..]
  {
    DroppedAt(s, i);
  }
}
