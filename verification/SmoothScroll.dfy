/** Smooth scrolling: fractions of a step are kept until they make a whole one. */
module SmoothScroll {

  function Abs(x: real): real {
    if x < 0.0 then -x else x
  }

  /// The unit steps a pending distance yields.
  function Steps(pending: real): (n: nat)
    ensures n as real <= Abs(pending) < n as real + 1.0
  {
    Abs(pending).Floor
  }

  function Sign(x: real): real {
    if x > 0.0 then 1.0 else -1.0
  }

  /// What is left of a distance when its whole part is taken away, with its sign.
  function Remainder(x: real): real {
    if x < 0.0 then -(Abs(x) - Steps(x) as real) else x - Steps(x) as real
  }

  /// A wheel event that reaches a host.
  datatype Wheel = Wheel(smooth: bool, speed: real, delta: real)

  /// How far the event means to scroll.
  function Distance(w: Wheel): real {
    w.delta * w.speed
  }

  predicate Accumulates(w: Wheel) {
    w.smooth && w.delta != 0.0
  }

  function Repeat(x: real, n: nat): (s: seq<real>)
    ensures |s| == n
  {
    seq(n, i => x)
  }

  /// The remainder kept, and the distances sent to the host one by one.
  function Scroll(pending: real, w: Wheel): (real, seq<real>) {
    if !Accumulates(w) then (0.0, [w.delta])
    else
      var p := pending + Distance(w);
      (Remainder(p), Repeat(Sign(p), Steps(p)))
  }

  function Sum(s: seq<real>): real {
    if s == [] then 0.0 else Sum(s[..|s| - 1]) + s[|s| - 1]
  }

  /// So many steps in the direction of x.
  function Travel(x: real, n: nat): real {
    if x > 0.0 then n as real else -(n as real)
  }

  lemma {:induction false} SumOfRepeat(x: real, n: nat)
    ensures Sum(Repeat(Sign(x), n)) == Travel(x, n)
  {
    if n > 0 {
      SumOfRepeat(x, n - 1);
      assert Repeat(Sign(x), n)[..n - 1] == Repeat(Sign(x), n - 1);
    }
  }

  lemma {:induction false} SumOfConcat(s: seq<real>, t: seq<real>)
    ensures Sum(s + t) == Sum(s) + Sum(t)
  {
    if t == [] {
      assert s + t == s;
    } else {
      SumOfConcat(s, t[..|t| - 1]);
      assert (s + t)[..|s + t| - 1] == s + t[..|t| - 1];
    }
  }

  /// One event sends unit steps only, all one way and none too few; with what it keeps,
  /// less than a step the same way, they add up to what came in.
  lemma ScrollConserves(pending: real, w: Wheel)
    requires Accumulates(w)
    ensures var (kept, sent) := Scroll(pending, w);
            && Sum(sent) + kept == pending + Distance(w)
            && -1.0 < kept < 1.0
            && (forall i :: 0 <= i < |sent| ==> sent[i] == 1.0 || sent[i] == -1.0)
            && (pending + Distance(w) >= 0.0 ==> kept >= 0.0 && forall i :: 0 <= i < |sent| ==> sent[i] == 1.0)
            && (pending + Distance(w) <= 0.0 ==> kept <= 0.0 && forall i :: 0 <= i < |sent| ==> sent[i] == -1.0)
  {
    hide Distance;
    var p := pending + Distance(w);
    WholeAndRest(p);
    SumOfRepeat(p, Steps(p));
    hide Sum;
    hide Steps;
    hide Remainder;
    var sent := Scroll(pending, w).1;
    assert sent == Repeat(Sign(p), Steps(p));
  }

  /// The signed whole part and the remainder make up the distance.
  lemma WholeAndRest(p: real)
    ensures Travel(p, Steps(p)) + Remainder(p) == p && -1.0 < Remainder(p) < 1.0
    ensures (p >= 0.0 ==> Remainder(p) >= 0.0) && (p <= 0.0 ==> Remainder(p) <= 0.0)
    ensures p == 0.0 ==> Steps(p) == 0
  {}

  /// Remainders and everything sent after the first k events.
  function ScrollRun(pending: real, ws: seq<Wheel>, k: nat): (real, seq<real>)
    requires k <= |ws|
  {
    if k == 0 then (pending, [])
    else
      var (p, sent) := ScrollRun(pending, ws, k - 1);
      var (kept, more) := Scroll(p, ws[k - 1]);
      (kept, sent + more)
  }

  function Incoming(ws: seq<Wheel>, k: nat): real
    requires k <= |ws|
  {
    if k == 0 then 0.0 else Incoming(ws, k - 1) + Distance(ws[k - 1])
  }

  /// Conservation over any run of smooth events: what came in is what was sent plus
  /// the change of the remainder, which stays strictly between -1 and 1.
  lemma {:induction false} ScrollRunConserves(pending: real, ws: seq<Wheel>, k: nat)
    requires k <= |ws| && -1.0 < pending < 1.0 && forall i :: 0 <= i < |ws| ==> Accumulates(ws[i])
    ensures var (kept, sent) := ScrollRun(pending, ws, k);
            && Incoming(ws, k) == Sum(sent) + (kept - pending)
            && -1.0 < kept < 1.0
            && forall i :: 0 <= i < |sent| ==> sent[i] == 1.0 || sent[i] == -1.0
  {
    hide Scroll;
    hide Distance;
    if k > 0 {
      ScrollRunConserves(pending, ws, k - 1);
      var (p, sent) := ScrollRun(pending, ws, k - 1);
      ScrollConserves(p, ws[k - 1]);
      SumOfConcat(sent, Scroll(p, ws[k - 1]).1);
    }
  }

  /// How the run is cut into events makes no difference beyond the last fraction:
  /// two runs with the same total send totals that differ by less than two steps.
  lemma SameTotalSameScroll(ws: seq<Wheel>, vs: seq<Wheel>)
    requires (forall i :: 0 <= i < |ws| ==> Accumulates(ws[i])) && (forall i :: 0 <= i < |vs| ==> Accumulates(vs[i]))
    requires Incoming(ws, |ws|) == Incoming(vs, |vs|)
    ensures -2.0 < Sum(ScrollRun(0.0, ws, |ws|).1) - Sum(ScrollRun(0.0, vs, |vs|).1) < 2.0
  {
    ScrollRunConserves(0.0, ws, |ws|);
    ScrollRunConserves(0.0, vs, |vs|);
  }

  /// An event that is not smooth, or goes nowhere, is sent on as it came and forgets the
  /// fraction kept: what is sent after it is what a fresh start would send.
  lemma {:induction false} PlainEventCuts(pending: real, ws: seq<Wheel>, i: nat, k: nat)
    requires i < k <= |ws| && (!ws[i].smooth || ws[i].delta == 0.0)
    ensures var before, after := ScrollRun(pending, ws, i), ScrollRun(0.0, ws[i + 1..], k - i - 1);
            && ScrollRun(pending, ws, k).0 == after.0
            && ScrollRun(pending, ws, k).1 == before.1 + [ws[i].delta] + after.1
    decreases k
  {
    hide Remainder;
    hide Repeat;
    if k > i + 1 {
      PlainEventCuts(pending, ws, i, k - 1);
      var (p, sent) := ScrollRun(0.0, ws[i + 1..], k - i - 2);
      assert ws[i + 1..][k - i - 2] == ws[k - 1];
      var before := ScrollRun(pending, ws, i).1;
      hide Scroll;
      assert before + [ws[i].delta] + (sent + Scroll(p, ws[k - 1]).1) ==
             before + [ws[i].delta] + sent + Scroll(p, ws[k - 1]).1;
    }
  }
}
