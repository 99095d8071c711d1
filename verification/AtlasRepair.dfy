/** The shared glyph atlas: a reset makes every cached grid stale, and repairing
    one grid may reset the atlas again. */
module AtlasRepair {
  import opened Identifiers

  /// What a grid that never drew has as its generation.
  const NEVER: nat := 0xffff_ffff_ffff_ffff

  /// The number of resets so far, and the note of a reset that only one asker gets.
  datatype Atlas = Atlas(generation: nat, resetPending: bool)

  /// What drawing a grid does: nothing, when it has no dirty cells; otherwise the
  /// resets shaping its text causes, in the first attempt and in the second.
  datatype Draw = Draw(blank: bool, first: nat, second: nat)

  /// Draws a grid: two attempts, given up when the atlas resets under both.
  function Flush(a: Atlas, rendered: nat, d: Draw): (Atlas, nat) {
    if d.blank then (a, a.generation)
    else
      var a1 := Atlas(a.generation + d.first, false);
      if d.first == 0 && !a.resetPending then (a1, a.generation)
      else
        var a2 := Atlas(a1.generation + d.second, false);
        (a2, if d.second == 0 then a1.generation else rendered)
  }

  /// The atlas, the generation last repaired, and the generation each grid of any
  /// Space and tab was last drawn at.
  datatype Scene = Scene(atlas: Atlas, repaired: nat, grids: seq<nat>)

  /// The first k grids drawn one after the other.
  function Pass(a: Atlas, grids: seq<nat>, draws: nat -> Draw, k: nat): (r: (Atlas, seq<nat>))
    requires k <= |grids|
    ensures |r.1| == |grids|
  {
    if k == 0 then (a, grids)
    else
      var (a1, g1) := Pass(a, grids, draws, k - 1);
      var (a2, rendered) := Flush(a1, g1[k - 1], draws(k - 1));
      (a2, g1[k - 1 := rendered])
  }

  /// Up to n passes, as long as there is a generation not yet repaired.
  function Passes(s: Scene, draws: nat -> nat -> Draw, n: nat): (r: (Scene, bool))
    ensures |r.0.grids| == |s.grids|
    decreases n
  {
    if s.atlas.generation == s.repaired then (s, true)
    else if n == 0 then (s, false)
    else
      var (atlas, grids) := Pass(s.atlas, s.grids, draws(n), |s.grids|);
      Passes(Scene(atlas, s.atlas.generation, grids), draws, n - 1)
  }

  const PASSES: nat := 3

  function Refresh(s: Scene, draws: nat -> nat -> Draw): (Scene, bool) {
    Passes(s, draws, PASSES)
  }

  /// The grid caches no glyph positions of another generation.
  predicate Current(rendered: nat, a: Atlas) {
    rendered == NEVER || rendered == a.generation
  }

  ghost predicate AllCurrent(s: Scene) {
    forall i :: 0 <= i < |s.grids| ==> Current(s.grids[i], s.atlas)
  }

  /// Nothing was repaired beyond the present; if the present is repaired, no grid
  /// is stale.
  ghost predicate SceneOk(s: Scene) {
    && s.repaired <= s.atlas.generation
    && (s.repaired == s.atlas.generation ==> AllCurrent(s))
  }

  lemma {:induction false} PassLaw(a: Atlas, grids: seq<nat>, draws: nat -> Draw, k: nat)
    requires k <= |grids|
    ensures var (a', grids') := Pass(a, grids, draws, k);
            && a.generation <= a'.generation
            && (a'.generation == a.generation ==> forall i :: 0 <= i < k ==> grids'[i] == a.generation)
  {
    if k > 0 {
      PassLaw(a, grids, draws, k - 1);
    }
  }

  lemma {:induction false} PassesLaw(s: Scene, draws: nat -> nat -> Draw, n: nat)
    requires SceneOk(s)
    ensures var (s', ok) := Passes(s, draws, n);
            && SceneOk(s') && s.atlas.generation <= s'.atlas.generation && s.repaired <= s'.repaired
            && (ok <==> s'.repaired == s'.atlas.generation) && (ok ==> AllCurrent(s'))
    decreases n
  {
    if s.atlas.generation != s.repaired && n > 0 {
      PassLaw(s.atlas, s.grids, draws(n), |s.grids|);
      var (atlas, grids) := Pass(s.atlas, s.grids, draws(n), |s.grids|);
      PassesLaw(Scene(atlas, s.atlas.generation, grids), draws, n - 1);
    }
  }

  // ---------------------------------------------------------------------------
  // Runs

  datatype Op =
    | DrawGrid(i: nat, d: Draw)
    /// Text outside the grids resets the atlas.
    | ResetByChrome(resets: nat)
    | NewGrid
    | CloseGrid(i: nat)
    | RefreshAll(draws: nat -> nat -> Draw)

  function Step(s: Scene, op: Op): Scene {
    match op
    case DrawGrid(i, d) =>
      if i < |s.grids| then
        var (atlas, rendered) := Flush(s.atlas, s.grids[i], d);
        s.(atlas := atlas, grids := s.grids[i := rendered])
      else s
    case ResetByChrome(resets) =>
      s.(atlas := if resets == 0 then s.atlas else Atlas(s.atlas.generation + resets, true))
    case NewGrid => s.(grids := s.grids + [NEVER])
    case CloseGrid(i) => if i < |s.grids| then s.(grids := s.grids[..i] + s.grids[i + 1..]) else s
    case RefreshAll(draws) => Refresh(s, draws).0
  }

  lemma StepKeepsScene(s: Scene, op: Op)
    requires SceneOk(s)
    ensures SceneOk(Step(s, op))
  {
    match op
    case CloseGrid(i) => if i < |s.grids| { DroppedAt(s.grids, i); }
    case RefreshAll(draws) => PassesLaw(s, draws, PASSES);
    case _ =>
  }

  ghost predicate Run(states: seq<Scene>, ops: seq<Op>) {
    && |states| == |ops| + 1 && states[0] == Scene(Atlas(0, false), 0, [])
    && forall k :: 0 <= k < |ops| ==> states[k + 1] == Step(states[k], ops[k])
  }

  lemma {:induction false} RunKeepsScene(states: seq<Scene>, ops: seq<Op>, k: nat)
    requires Run(states, ops) && k < |states|
    ensures SceneOk(states[k])
  {
    hide SceneOk;
    hide Step;
    if k == 0 {
      EmptySceneOk();
    } else {
      RunKeepsScene(states, ops, k - 1);
      StepKeepsScene(states[k - 1], ops[k - 1]);
    }
  }

  lemma EmptySceneOk()
    ensures SceneOk(Scene(Atlas(0, false), 0, []))
  {}

  /// Whenever a refresh reports success, no grid of any Space or tab is stale at
  /// the generation the atlas then has; it reports success exactly when that
  /// generation is the one last repaired.
  lemma RefreshIsHonest(states: seq<Scene>, ops: seq<Op>, k: nat, draws: nat -> nat -> Draw)
    requires Run(states, ops) && k < |states|
    ensures var (s', ok) := Refresh(states[k], draws);
            && (ok ==> AllCurrent(s')) && (ok <==> s'.repaired == s'.atlas.generation)
  {
    RunKeepsScene(states, ops, k);
    PassesLaw(states[k], draws, PASSES);
    hide Passes;
  }

  // ---------------------------------------------------------------------------
  // When a refresh succeeds, and which grids it leaves behind

  /// The note of a reset is still unread when the i-th grid has its turn: no grid
  /// before it had anything to draw.
  ghost predicate NoteAt(pending: bool, draws: nat -> Draw, i: nat) {
    pending && forall j :: 0 <= j < i ==> draws(j).blank
  }

  /// The grid is drawn for good: in the first attempt, or in the second.
  ghost predicate Settles(pending: bool, draws: nat -> Draw, i: nat) {
    draws(i).blank || draws(i).second == 0 || (draws(i).first == 0 && !NoteAt(pending, draws, i))
  }

  /// The first k draws of a pass reset nothing; only a draw that finds the note
  /// gets to its second attempt then.
  ghost predicate Still(pending: bool, draws: nat -> Draw, k: nat) {
    forall i :: 0 <= i < k ==>
      draws(i).blank || (draws(i).first == 0 && (NoteAt(pending, draws, i) ==> draws(i).second == 0))
  }

  lemma NoteStep(pending: bool, draws: nat -> Draw, i: nat)
    ensures NoteAt(pending, draws, i + 1) <==> NoteAt(pending, draws, i) && draws(i).blank
  {}

  lemma StillStep(pending: bool, draws: nat -> Draw, k: nat)
    ensures Still(pending, draws, k + 1) <==>
              Still(pending, draws, k)
              && (draws(k).blank || (draws(k).first == 0 && (NoteAt(pending, draws, k) ==> draws(k).second == 0)))
  {
    hide NoteAt;
  }

  /// Where a pass stands after its first k draws: whether the note is still unread,
  /// whether anything was reset, and where each grid is.
  lemma {:induction false} PassExactly(a: Atlas, grids: seq<nat>, draws: nat -> Draw, k: nat)
    requires k <= |grids|
    ensures var (a', grids') := Pass(a, grids, draws, k);
            && (a'.resetPending <==> NoteAt(a.resetPending, draws, k))
            && a.generation <= a'.generation
            && (a'.generation == a.generation <==> Still(a.resetPending, draws, k))
            && (forall i :: 0 <= i < k ==>
                  if Settles(a.resetPending, draws, i) then a.generation <= grids'[i] <= a'.generation
                  else grids'[i] == grids[i])
            && (forall i :: k <= i < |grids| ==> grids'[i] == grids[i])
  {
    if k > 0 {
      PassExactly(a, grids, draws, k - 1);
      NoteStep(a.resetPending, draws, k - 1);
      StillStep(a.resetPending, draws, k - 1);
      hide Still;
      hide NoteAt;
    }
  }

  /// After one pass a grid lies below the generation the pass set out to repair
  /// exactly when it did before and its draw did not settle.
  lemma BehindExactly(a: Atlas, grids: seq<nat>, draws: nat -> Draw, i: nat)
    requires i < |grids|
    ensures Pass(a, grids, draws, |grids|).1[i] < a.generation <==>
              grids[i] < a.generation && !Settles(a.resetPending, draws, i)
  {
    PassExactly(a, grids, draws, |grids|);
    hide Pass;
    hide Settles;
    hide Still;
  }

  /// A refresh reports success exactly when there was nothing to repair or one of
  /// its three passes resets nothing; the note left at entry counts in the first.
  lemma RefreshSucceedsExactly(s: Scene, draws: nat -> nat -> Draw)
    ensures Refresh(s, draws).1 <==>
              || s.atlas.generation == s.repaired
              || Still(s.atlas.resetPending, draws(3), |s.grids|)
              || Still(false, draws(2), |s.grids|) || Still(false, draws(1), |s.grids|)
  {
    PassesSucceedExactly(s, draws, PASSES);
    hide Still;
  }

  /// One of the passes n, n - 1, ..., 1 resets nothing.
  ghost predicate SomeStill(pending: bool, draws: nat -> nat -> Draw, k: nat, n: nat)
    decreases n
  {
    n > 0 && (Still(pending, draws(n), k) || SomeStill(false, draws, k, n - 1))
  }

  lemma {:induction false} PassesSucceedExactly(s: Scene, draws: nat -> nat -> Draw, n: nat)
    ensures Passes(s, draws, n).1 <==>
              s.atlas.generation == s.repaired || SomeStill(s.atlas.resetPending, draws, |s.grids|, n)
    decreases n
  {
    if s.atlas.generation != s.repaired && n > 0 {
      var k := |s.grids|;
      var (atlas, grids) := Pass(s.atlas, s.grids, draws(n), k);
      PassExactly(s.atlas, s.grids, draws(n), k);
      NoteOutlivesStillOnly(s.atlas.resetPending, draws(n), k);
      PassesSucceedExactly(Scene(atlas, s.atlas.generation, grids), draws, n - 1);
      hide Pass;
      hide Still;
      hide Settles;
      hide NoteAt;
    }
  }

  /// A note unread after a pass means that nothing was drawn, so nothing was reset.
  lemma NoteOutlivesStillOnly(pending: bool, draws: nat -> Draw, k: nat)
    ensures NoteAt(pending, draws, k) ==> Still(pending, draws, k)
  {}

  /// The scene and the number of the last pass that is made, if any is.
  ghost function LastPass(s: Scene, draws: nat -> nat -> Draw, n: nat): Option<(Scene, nat)>
    decreases n
  {
    if s.atlas.generation == s.repaired || n == 0 then None
    else
      var (atlas, grids) := Pass(s.atlas, s.grids, draws(n), |s.grids|);
      var rest := LastPass(Scene(atlas, s.atlas.generation, grids), draws, n - 1);
      if rest.Some? then rest else Some((s, n))
  }

  /// Every grid was drawn at the generation last repaired, or later.
  ghost predicate NoneBehind(s: Scene) {
    forall i :: 0 <= i < |s.grids| ==> s.repaired <= s.grids[i]
  }

  /// Without a pass nothing changes; after passes no grid lies behind the generation
  /// recorded as repaired exactly when each that did before the last pass settled in it.
  lemma {:induction false} PassesBehindExactly(s: Scene, draws: nat -> nat -> Draw, n: nat)
    ensures var s' := Passes(s, draws, n).0;
            match LastPass(s, draws, n)
            case None => s' == s
            case Some((t, m)) =>
              && |t.grids| == |s'.grids| && s'.repaired == t.atlas.generation
              && (NoneBehind(s') <==> forall i :: 0 <= i < |t.grids| && t.grids[i] < t.atlas.generation ==>
                                       Settles(t.atlas.resetPending, draws(m), i))
    decreases n
  {
    if s.atlas.generation != s.repaired && n > 0 {
      var (atlas, grids) := Pass(s.atlas, s.grids, draws(n), |s.grids|);
      var rest := Scene(atlas, s.atlas.generation, grids);
      PassesBehindExactly(rest, draws, n - 1);
      if LastPass(rest, draws, n - 1).None? {
        forall i | 0 <= i < |s.grids|
          ensures grids[i] < s.atlas.generation <==>
                    s.grids[i] < s.atlas.generation && !Settles(s.atlas.resetPending, draws(n), i)
        {
          BehindExactly(s.atlas, s.grids, draws(n), i);
        }
      }
      hide Settles;
      hide Pass;
    }
  }

  /// What keeps every grid at the repaired generation over a run: each refresh
  /// settles, in its last pass, the grids that lag behind.
  ghost predicate Catches(s: Scene, op: Op) {
    op.RefreshAll? ==>
      match LastPass(s, op.draws, PASSES)
      case None => true
      case Some((t, m)) => forall i :: 0 <= i < |t.grids| && t.grids[i] < t.atlas.generation ==>
                             Settles(t.atlas.resetPending, op.draws(m), i)
  }

  /// No operation but a refresh that fails to settle a lagging grid leaves one
  /// behind the repaired generation.
  lemma StepBehindExactly(s: Scene, op: Op)
    requires SceneOk(s) && NoneBehind(s) && s.atlas.generation < NEVER
    ensures NoneBehind(Step(s, op)) <==> Catches(s, op)
  {
    hide Settles;
    match op
    case RefreshAll(draws) => PassesBehindExactly(s, draws, PASSES); hide Passes;
    case CloseGrid(i) => if i < |s.grids| { DroppedAt(s.grids, i); }
    case _ =>
  }

  /// Over every run, until the first refresh that fails in this, no grid lies behind;
  /// after that refresh one does. Generations stay below the 64-bit mark of a grid
  /// that never drew.
  lemma {:induction false} RunBehindExactly(states: seq<Scene>, ops: seq<Op>, k: nat)
    requires Run(states, ops) && k < |states|
    requires forall i :: 0 <= i < k ==> states[i].atlas.generation < NEVER
    requires forall i :: 0 <= i < k - 1 ==> Catches(states[i], ops[i])
    ensures NoneBehind(states[k]) <==> (k > 0 ==> Catches(states[k - 1], ops[k - 1]))
  {
    hide Step;
    hide Catches;
    if k > 0 {
      RunBehindExactly(states, ops, k - 1);
      RunKeepsScene(states, ops, k - 1);
      hide SceneOk;
      hide NoneBehind;
      StepBehindExactly(states[k - 1], ops[k - 1]);
    }
  }

  /// A run that ends with a grid behind the repaired generation: it is drawn once,
  /// other text resets the atlas, and in the refresh both of its attempts reset it
  /// again. The refresh reports failure.
  lemma GridCanFallBehind() returns (states: seq<Scene>, ops: seq<Op>, draws: nat -> nat -> Draw)
    ensures Run(states, ops) && |ops| == 4 && ops[3] == RefreshAll(draws) && !Refresh(states[3], draws).1
    ensures |states[4].grids| == 1 && states[4].grids[0] < states[4].repaired
  {
    draws := n => i => Draw(false, 1, 1);
    ops := [NewGrid, DrawGrid(0, Draw(true, 0, 0)), ResetByChrome(1), RefreshAll(draws)];
    var s3 := Scene(Atlas(1, true), 0, [0]);
    states := [Scene(Atlas(0, false), 0, []), Scene(Atlas(0, false), 0, [NEVER]), Scene(Atlas(0, false), 0, [0]),
               s3, Refresh(s3, draws).0];
    assert [NEVER][0 := 0] == [0];
    assert [] + [NEVER] == [NEVER];
    OneGridFallsBehind(draws);
    hide Passes;
    assert forall k :: 0 <= k < 4 ==> states[k + 1] == Step(states[k], ops[k]);
  }

  lemma OneGridFallsBehind(draws: nat -> nat -> Draw)
    requires forall n, i :: draws(n)(i) == Draw(false, 1, 1)
    ensures Refresh(Scene(Atlas(1, true), 0, [0]), draws) == (Scene(Atlas(7, false), 5, [0]), false)
  {
    var s1, s2, s3 := Scene(Atlas(3, false), 1, [0]), Scene(Atlas(5, false), 3, [0]), Scene(Atlas(7, false), 5, [0]);
    OneGridPass(Atlas(1, true), draws(3));
    OneGridPass(Atlas(3, false), draws(2));
    OneGridPass(Atlas(5, false), draws(1));
    assert Passes(s3, draws, 0) == (s3, false);
    assert Passes(s2, draws, 1) == (s3, false);
    assert Passes(s1, draws, 2) == (s3, false);
  }

  lemma OneGridPass(a: Atlas, draws: nat -> Draw)
    requires draws(0) == Draw(false, 1, 1)
    ensures Pass(a, [0], draws, 1) == (Atlas(a.generation + 2, false), [0])
  {
    assert Pass(a, [0], draws, 0) == (a, [0]);
    var (a2, rendered) := Flush(a, [0][0], draws(0));
    assert rendered == 0 && a2 == Atlas(a.generation + 2, false);
    assert [0][0 := 0] == [0];
    hide Flush;
  }

  // ---------------------------------------------------------------------------
  // The application's refresh, in place

  class GridHost {
    var rendered: nat

    constructor ()
      ensures rendered == NEVER
    {
      rendered := NEVER;
    }
  }

  class AtlasConsumers {
    var atlas: Atlas
    var repaired: nat
    /// The grid hosts of all Spaces and tabs, in the order they are walked.
    var hosts: seq<GridHost>

    ghost predicate Valid()
      reads this
    {
      forall i, j :: 0 <= i < j < |hosts| ==> hosts[i] != hosts[j]
    }

    ghost function View(): Scene
      reads this, hosts
    {
      Scene(atlas, repaired, seq(|hosts|, i requires 0 <= i < |hosts| reads this, hosts => hosts[i].rendered))
    }

    constructor ()
      ensures Valid() && View() == Scene(Atlas(0, false), 0, [])
    {
      atlas, repaired, hosts := Atlas(0, false), 0, [];
    }

    /// One host redraws its grid.
    method OnGlyphAtlasReset(i: nat, d: Draw)
      requires Valid() && i < |hosts|
      modifies `atlas, hosts[i]
      ensures (atlas, hosts[i].rendered) == Flush(old(atlas), old(hosts[i].rendered), d)
    {
      for attempt := 0 to 2
        invariant hosts[i].rendered == old(hosts[i].rendered)
        invariant attempt == 0 ==> atlas == old(atlas)
        invariant attempt == 1 ==> !d.blank && !(d.first == 0 && !old(atlas).resetPending)
                                   && atlas == Atlas(old(atlas).generation + d.first, false)
        invariant attempt == 2 ==> (atlas, hosts[i].rendered) == Flush(old(atlas), old(hosts[i].rendered), d)
      {
        var generation := atlas.generation;
        if d.blank {
          hosts[i].rendered := generation;
          return;
        }
        var resets := if attempt == 0 then d.first else d.second;
        var reset := atlas.resetPending || resets > 0;
        atlas := Atlas(generation + resets, false);
        if !reset {
          hosts[i].rendered := generation;
          return;
        }
      }
    }

    /// One pass over all hosts.
    method RepairAll(draws: nat -> Draw)
      requires Valid()
      modifies `atlas, hosts
      ensures Valid()
      ensures var (a, grids) := Pass(old(atlas), old(View()).grids, draws, |hosts|);
              atlas == a && View().grids == grids
    {
      hide Flush;
      ghost var grids := View().grids;
      for k := 0 to |hosts|
        invariant Valid() && hosts == old(hosts) && repaired == old(repaired)
        invariant var (a, g) := Pass(old(atlas), grids, draws, k); atlas == a && View().grids == g
      {
        OnGlyphAtlasReset(k, draws(k));
      }
    }

    /// Repairs until the generation stands still, three passes at most.
    method RefreshSharedAtlasConsumers(draws: nat -> nat -> Draw) returns (ok: bool)
      requires Valid()
      modifies `atlas, `repaired, hosts
      ensures Valid() && (View(), ok) == Refresh(old(View()), draws)
      ensures old(SceneOk(View())) ==> SceneOk(View()) && (ok ==> AllCurrent(View()))
    {
      hide Pass;
      ghost var before := View();
      if SceneOk(before) { PassesLaw(before, draws, PASSES); }
      for pass := 0 to PASSES
        invariant Valid() && hosts == old(hosts)
        invariant Refresh(before, draws) == Passes(View(), draws, PASSES - pass)
      {
        var generation := atlas.generation;
        if generation == repaired {
          return true;
        }
        ghost var top := View();
        repaired := generation;
        assert View() == top.(repaired := generation);
        RepairAll(draws(PASSES - pass));
        ghost var drawn := Pass(top.atlas, top.grids, draws(PASSES - pass), |top.grids|);
        assert View() == Scene(drawn.0, generation, drawn.1);
        assert Passes(top, draws, PASSES - pass) == Passes(View(), draws, PASSES - pass - 1);
      }
      return atlas.generation == repaired;
    }
  }
}
