/** Discovering agents by probing the processes of a pane: rate limited, slow to
    forget, and respectful of a dismissal. One pane is one route. */
module AgentDiscovery {
  import opened Identifiers
  import opened PaneModel

  /// Instants and spans in nanoseconds of a clock that never reads zero.
  const PROBE_INTERVAL: int := 500_000_000
  const REMOVAL_PROBES: int := 6
  const NEVER: int := 0

  datatype Discovery = Discovery(
    generation: nat, lastProbe: int, detectedAt: int, kind: string, evidence: string, high: bool,
    failed: nat, absent: nat, present: bool, manual: bool, dismissed: string)

  function Blank(generation: nat): Discovery {
    Discovery(generation, NEVER, NEVER, "", "", false, 0, 0, false, false, "")
  }

  /// What is known about the pane: the discovery record and the identity it shows.
  datatype Route = Route(discovery: Discovery, identity: Option<AgentIdentity>)

  /// What a probe of the pane's processes can find.
  datatype Match = Match(kind: string, displayName: string, evidence: string, high: bool)

  /// One look at the pane: the clock, the host's runtime generation, whether a host
  /// is there and running, what a probe would find and the name a new agent gets.
  datatype Tick = Tick(now: int, generation: nat, running: bool, found: Option<Match>, name: string)

  function Identity(m: Match, name: string): AgentIdentity {
    AgentIdentity("", m.kind, m.displayName, name, Discovered)
  }

  predicate IsDiscovered(identity: Option<AgentIdentity>) {
    identity.Some? && identity.value.origin == Discovered
  }

  /// A new runtime generation starts the record afresh and ends a manual override.
  function Renewed(r: Route, generation: nat): Route {
    if r.discovery.generation == generation then r
    else Route(Blank(generation), if r.discovery.manual && IsDiscovered(r.identity) then None else r.identity)
  }

  predicate Due(d: Discovery, now: int) {
    d.lastProbe == NEVER || now - d.lastProbe >= PROBE_INTERVAL
  }

  /// Whether this look probes the pane.
  predicate Probes(r: Route, t: Tick) {
    var r1 := Renewed(r, t.generation);
    && (r1.identity.None? || (IsDiscovered(r1.identity) && !r1.discovery.manual))
    && t.running && Due(r1.discovery, t.now)
  }

  function Matched(r: Route, t: Tick, m: Match): Route {
    var d := r.discovery;
    if r.identity.None? && d.dismissed == m.kind then r.(discovery := d.(present := true, absent := 0))
    else
      var lifted := if d.dismissed != "" && d.dismissed != m.kind then d.(dismissed := "", absent := 0) else d;
      var seen := lifted.(kind := m.kind, evidence := m.evidence, high := m.high, failed := 0, present := true);
      if r.identity.None? || r.identity.value.origin != Discovered || r.identity.value.kind != m.kind then
        Route(seen.(detectedAt := t.now), Some(Identity(m, t.name)))
      else Route(seen, r.identity)
  }

  function Missed(r: Route, t: Tick): Route {
    var d := r.discovery;
    if r.identity.None? && d.dismissed != "" then
      r.(discovery := if d.absent + 1 >= REMOVAL_PROBES then d.(dismissed := "", absent := 0)
         else d.(absent := d.absent + 1))
    else if IsDiscovered(r.identity) then
      if d.failed + 1 >= REMOVAL_PROBES then Route(Blank(t.generation), None)
      else r.(discovery := d.(present := false, failed := d.failed + 1))
    else r
  }

  function Scan(r: Route, t: Tick): Route {
    var r1 := Renewed(r, t.generation);
    if !Probes(r, t) then r1
    else
      var probed := r1.(discovery := r1.discovery.(lastProbe := t.now));
      match t.found
      case Some(m) => Matched(probed, t, m)
      case None => Missed(probed, t)
  }

  /// The user says which agent the focused pane runs.
  function Attach(generation: nat, now: int, kind: string, correcting: bool, identity: AgentIdentity): Route {
    Route(Blank(generation).(lastProbe := now, detectedAt := now, kind := kind,
                             evidence := if correcting then "manual_correction" else "manual_attach",
                             high := true, present := true, manual := true),
          Some(identity))
  }

  /// The user says the focused pane's agent is none.
  function Dismiss(r: Route, generation: nat): Route {
    if r.identity.None? then r
    else
      Route(r.discovery.(generation := generation, dismissed := r.identity.value.kind, absent := 0, present := false,
                         manual := false),
            None)
  }

  // ---------------------------------------------------------------------------
  // Runs of looks

  /// Looks at one pane within one runtime generation, without user action, at
  /// instants that do not go back.
  ghost predicate Run(routes: seq<Route>, ticks: seq<Tick>, generation: nat) {
    && |routes| == |ticks| + 1 && routes[0].discovery.generation == generation
    && (routes[0].discovery.manual ==> routes[0].identity.Some?)
    && (forall k :: 0 <= k < |ticks| ==> ticks[k].generation == generation && ticks[k].now > 0)
    && (forall k :: 0 <= k < |ticks| ==> routes[k + 1] == Scan(routes[k], ticks[k]))
    && (forall i, j :: 0 <= i < j < |ticks| ==> ticks[i].now <= ticks[j].now)
  }

  lemma {:induction false} RunGeneration(routes: seq<Route>, ticks: seq<Tick>, generation: nat, k: nat)
    requires Run(routes, ticks, generation) && k < |routes|
    ensures routes[k].discovery.generation == generation
    ensures routes[k].discovery.manual ==> routes[k].identity.Some?
  {
    if k > 0 {
      RunGeneration(routes, ticks, generation, k - 1);
      assert routes[k] == Scan(routes[k - 1], ticks[k - 1]);
      hide Identity;
    }
  }

  /// Probes that found nothing, among the looks after the i-th and before the k-th.
  ghost function Misses(routes: seq<Route>, ticks: seq<Tick>, i: nat, k: nat): nat
    requires |routes| == |ticks| + 1 && i < k <= |ticks|
    decreases k
  {
    if k == i + 1 then 0
    else
      var missed := Probes(routes[k - 1], ticks[k - 1]) && ticks[k - 1].found.None?;
      Misses(routes, ticks, i, k - 1) + (if missed then 1 else 0)
  }

  /// The i-th look found a running agent and shows it.
  ghost predicate Sighted(routes: seq<Route>, ticks: seq<Tick>, i: nat)
    requires |routes| == |ticks| + 1 && i < |ticks|
  {
    Probes(routes[i], ticks[i]) && ticks[i].found.Some? && IsDiscovered(routes[i + 1].identity)
  }

  /// Between a sighting and the next: nothing matching was found.
  ghost predicate Unseen(routes: seq<Route>, ticks: seq<Tick>, i: nat, k: nat)
    requires |routes| == |ticks| + 1 && i < k <= |ticks|
  {
    forall m :: i < m < k && Probes(routes[m], ticks[m]) ==> ticks[m].found.None?
  }

  lemma SightingResets(routes: seq<Route>, ticks: seq<Tick>, generation: nat, i: nat)
    requires Run(routes, ticks, generation) && i < |ticks| && Sighted(routes, ticks, i)
    ensures var d := routes[i + 1].discovery; d.failed == 0 && d.lastProbe == ticks[i].now && !d.manual
  {
    RunGeneration(routes, ticks, generation, i);
    assert routes[i + 1] == Scan(routes[i], ticks[i]);
    hide Identity;
  }

  /// Hysteresis. After a sighting and until the next, the identity shown stays as
  /// long as fewer than six probes have failed; it is cleared by the sixth failed
  /// probe and by nothing else, hence at least 3000 ms after the sighting.
  lemma {:induction false} ClearedOnSixth(routes: seq<Route>, ticks: seq<Tick>, generation: nat, i: nat, k: nat)
    requires Run(routes, ticks, generation) && i < k <= |ticks| && Sighted(routes, ticks, i)
             && Unseen(routes, ticks, i, k)
    requires forall m :: i < m < k ==> routes[m].identity.Some?
    ensures routes[k].identity.Some? ==>
              && routes[k].identity == routes[i + 1].identity
              && var d := routes[k].discovery;
                 d.failed == Misses(routes, ticks, i, k) < 6 && !d.manual && 0 < d.lastProbe
                 && ticks[i].now + PROBE_INTERVAL * Misses(routes, ticks, i, k) <= d.lastProbe <= ticks[k - 1].now
    ensures routes[k].identity.None? <==> Misses(routes, ticks, i, k) == 6
    ensures routes[k].identity.None? ==> ticks[k - 1].now - ticks[i].now >= 3_000_000_000
    decreases k
  {
    assert |routes| == |ticks| + 1;
    hide Run;
    if k == i + 1 {
      SightingResets(routes, ticks, generation, i);
      FromRun(routes, ticks, generation, i);
    } else {
      ClearedOnSixth(routes, ticks, generation, i, k - 1);
      FromRun(routes, ticks, generation, k - 1);
      RunGeneration(routes, ticks, generation, k - 1);
      InOrder(routes, ticks, generation, k - 2, k - 1);
      MissStep(routes[k - 1], ticks[k - 1]);
    }
  }

  lemma FromRun(routes: seq<Route>, ticks: seq<Tick>, generation: nat, k: nat)
    requires Run(routes, ticks, generation) && k < |ticks|
    ensures routes[k + 1] == Scan(routes[k], ticks[k]) && ticks[k].generation == generation && ticks[k].now > 0
  {}

  lemma InOrder(routes: seq<Route>, ticks: seq<Tick>, generation: nat, i: nat, j: nat)
    requires Run(routes, ticks, generation) && i < j < |ticks|
    ensures ticks[i].now <= ticks[j].now
  {}

  /// One look at a pane whose discovered agent is not found.
  lemma MissStep(r: Route, t: Tick)
    requires t.generation == r.discovery.generation && IsDiscovered(r.identity) && !r.discovery.manual
    requires Probes(r, t) ==> t.found.None?
    ensures var q := Scan(r, t);
            if !Probes(r, t) then q == r
            else if r.discovery.failed + 1 >= 6 then q.identity.None?
            else
              && q.identity == r.identity
              && q.discovery == r.discovery.(lastProbe := t.now, present := false, failed := r.discovery.failed + 1)
  {}

  // ---------------------------------------------------------------------------
  // What a look shows

  /// A probe that finds an agent shows it, unless its kind was dismissed: one of the kind
  /// shown before stays as it is, any other gets an identity of its own, detected now.
  lemma SightingShows(r: Route, t: Tick, m: Match)
    requires t.generation == r.discovery.generation && Probes(r, t) && t.found == Some(m)
    requires r.identity.Some? || r.discovery.dismissed != m.kind
    ensures var q := Scan(r, t);
            && q.identity.Some? && q.identity.value.kind == m.kind && q.identity.value.origin == Discovered
            && q.discovery.kind == m.kind && q.discovery.evidence == m.evidence && q.discovery.high == m.high
            && q.discovery.failed == 0 && q.discovery.present && q.discovery.lastProbe == t.now
            && (if r.identity.Some? && r.identity.value.kind == m.kind then
                  q.identity == r.identity && q.discovery.detectedAt == r.discovery.detectedAt
                else
                  && q.identity.value.displayName == m.displayName && q.identity.value.instanceId == t.name
                  && q.identity.value.profileId == "" && q.discovery.detectedAt == t.now)
  {}

  /// An agent that Draxul started itself is neither probed for nor replaced by a look.
  lemma ManagedStays(r: Route, t: Tick)
    requires r.identity.Some? && r.identity.value.origin == Managed
    ensures !Probes(r, t) && Scan(r, t).identity == r.identity
  {}

  /// Nothing is probed while no host runs, nor again within half a second of the last probe.
  lemma ProbesSparingly(r: Route, t: Tick)
    requires Probes(r, t)
    ensures t.running && Scan(r, t).discovery.lastProbe in {t.now, NEVER}
    ensures t.generation == r.discovery.generation && r.discovery.lastProbe != NEVER ==>
              t.now - r.discovery.lastProbe >= 500_000_000
  {}

  // ---------------------------------------------------------------------------
  // Dismissal

  /// Consecutive probes that found nothing, up to the k-th look, counted from the first.
  ghost function Absences(routes: seq<Route>, ticks: seq<Tick>, k: nat): nat
    requires |routes| == |ticks| + 1 && k <= |ticks|
  {
    if k == 0 then 0
    else if !Probes(routes[k - 1], ticks[k - 1]) then Absences(routes, ticks, k - 1)
    else if ticks[k - 1].found.Some? then 0
    else Absences(routes, ticks, k - 1) + 1
  }

  /// Every probe among the first k looks found the given kind or nothing.
  ghost predicate OnlyKind(routes: seq<Route>, ticks: seq<Tick>, kind: string, k: nat)
    requires |routes| == |ticks| + 1 && k <= |ticks|
  {
    forall m :: 0 <= m < k && Probes(routes[m], ticks[m]) && ticks[m].found.Some? ==> ticks[m].found.value.kind == kind
  }

  /// One look at a pane from which a kind was dismissed.
  lemma DismissedStep(r: Route, t: Tick)
    requires t.generation == r.discovery.generation && r.identity.None? && r.discovery.dismissed != ""
    ensures var q := Scan(r, t);
            if !Probes(r, t) then q == r
            else match t.found
              case Some(m) =>
                if m.kind == r.discovery.dismissed then
                  q.identity.None? && q.discovery.dismissed == m.kind && q.discovery.absent == 0
                else q.identity == Some(Identity(m, t.name)) && q.discovery.dismissed == ""
              case None =>
                q.identity.None? && if r.discovery.absent + 1 >= 6 then q.discovery.dismissed == ""
                else q.discovery.dismissed == r.discovery.dismissed && q.discovery.absent == r.discovery.absent + 1
  {
    hide Identity;
  }

  /// A dismissed kind is not attached again while probes find only that kind or
  /// nothing and never six times in a row nothing; at the sixth the dismissal ends.
  lemma {:induction false} DismissalHolds(routes: seq<Route>, ticks: seq<Tick>, generation: nat, kind: string, k: nat)
    requires Run(routes, ticks, generation) && k <= |ticks| && kind != ""
    requires routes[0].identity.None? && routes[0].discovery.dismissed == kind && routes[0].discovery.absent == 0
    requires OnlyKind(routes, ticks, kind, k)
    requires forall m :: 0 <= m < k ==> Absences(routes, ticks, m) < 6
    ensures routes[k].identity.None?
    ensures Absences(routes, ticks, k) < 6 ==>
              routes[k].discovery.dismissed == kind && routes[k].discovery.absent == Absences(routes, ticks, k)
    ensures Absences(routes, ticks, k) == 6 ==> routes[k].discovery.dismissed == ""
    ensures Absences(routes, ticks, k) <= 6
  {
    assert |routes| == |ticks| + 1;
    hide Run;
    if k > 0 {
      DismissalHolds(routes, ticks, generation, kind, k - 1);
      FromRun(routes, ticks, generation, k - 1);
      RunGeneration(routes, ticks, generation, k - 1);
      DismissedStep(routes[k - 1], ticks[k - 1]);
    }
  }

  /// What dismissing does: no identity, and the kind remembered.
  lemma DismissStarts(r: Route, generation: nat)
    requires r.identity.Some?
    ensures var q := Dismiss(r, generation);
            && q.identity.None? && q.discovery.dismissed == r.identity.value.kind && q.discovery.absent == 0
            && q.discovery.generation == generation && !q.discovery.manual
  {}

  /// Six probes in a row had found nothing at one of the first k looks.
  ghost predicate Forgotten(routes: seq<Route>, ticks: seq<Tick>, k: nat)
    requires |routes| == |ticks| + 1 && k <= |ticks|
  {
    exists m :: 0 <= m <= k && Absences(routes, ticks, m) >= 6
  }

  /// While nothing is attached the dismissal stands until it is forgotten.
  lemma {:induction false} StandsUntilForgotten(routes: seq<Route>, ticks: seq<Tick>, generation: nat, kind: string,
                                                k: nat)
    requires Run(routes, ticks, generation) && k <= |ticks| && kind != ""
    requires routes[0].identity.None? && routes[0].discovery.dismissed == kind && routes[0].discovery.absent == 0
    requires forall m :: 0 <= m <= k ==> routes[m].identity.None?
    requires forall m :: 0 <= m < k && ticks[m].found.Some? ==> ticks[m].found.value.kind != ""
    ensures var d := routes[k].discovery;
            if Forgotten(routes, ticks, k) then d.dismissed == ""
            else d.dismissed == kind && d.absent == Absences(routes, ticks, k) < 6
  {
    assert |routes| == |ticks| + 1;
    hide Run;
    if k > 0 {
      StandsUntilForgotten(routes, ticks, generation, kind, k - 1);
      FromRun(routes, ticks, generation, k - 1);
      RunGeneration(routes, ticks, generation, k - 1);
      if routes[k - 1].discovery.dismissed != "" {
        DismissedStep(routes[k - 1], ticks[k - 1]);
      } else {
        UndismissedStep(routes[k - 1], ticks[k - 1]);
      }
      ForgottenStep(routes, ticks, k);
    }
  }

  lemma ForgottenStep(routes: seq<Route>, ticks: seq<Tick>, k: nat)
    requires |routes| == |ticks| + 1 && 0 < k <= |ticks|
    ensures Forgotten(routes, ticks, k) <==> Forgotten(routes, ticks, k - 1) || Absences(routes, ticks, k) >= 6
  {
    hide Absences;
  }

  /// One look at a pane with neither an identity nor a dismissal: what it finds is attached.
  lemma UndismissedStep(r: Route, t: Tick)
    requires t.generation == r.discovery.generation && r.identity.None? && r.discovery.dismissed == ""
    requires t.found.Some? ==> t.found.value.kind != ""
    ensures var q := Scan(r, t);
            && q.identity == (if Probes(r, t) && t.found.Some? then Some(Identity(t.found.value, t.name)) else None)
            && q.discovery.dismissed == ""
  {
    hide Identity;
  }

  /// After the user dismissed an agent, the first identity the pane shows again is
  /// attached by a probe that finds another kind, or, once six probes in a row have
  /// found nothing, by one that finds any; and each such probe attaches one.
  lemma ReattachedExactly(r: Route, routes: seq<Route>, ticks: seq<Tick>, generation: nat, k: nat)
    requires r.identity.Some? && r.identity.value.kind != "" && routes != [] && routes[0] == Dismiss(r, generation)
    requires Run(routes, ticks, generation) && k < |ticks|
    requires forall m :: 0 <= m <= k ==> routes[m].identity.None?
    requires forall m :: 0 <= m <= k && ticks[m].found.Some? ==> ticks[m].found.value.kind != ""
    ensures var t := ticks[k];
            routes[k + 1].identity ==
              if Probes(routes[k], t) && t.found.Some?
                && (t.found.value.kind != r.identity.value.kind || Forgotten(routes, ticks, k))
              then Some(Identity(t.found.value, t.name)) else None
  {
    var kind := r.identity.value.kind;
    assert |routes| == |ticks| + 1;
    DismissStarts(r, generation);
    hide Dismiss;
    StandsUntilForgotten(routes, ticks, generation, kind, k);
    FromRun(routes, ticks, generation, k);
    RunGeneration(routes, ticks, generation, k);
    hide Run;
    hide Forgotten;
    hide Identity;
    hide Probes;
    if routes[k].discovery.dismissed != "" {
      DismissedStep(routes[k], ticks[k]);
    } else {
      UndismissedStep(routes[k], ticks[k]);
    }
  }

  /// A look in a new runtime generation forgets the dismissal, so the kind attaches
  /// as soon as it is found, and drops an identity the user had attached.
  lemma NewGenerationForgets(r: Route, t: Tick, m: Match)
    requires t.generation != r.discovery.generation && t.running && t.found == Some(m) && m.kind != ""
    requires r.identity.None? || (r.discovery.manual && IsDiscovered(r.identity))
    ensures Probes(r, t) && Scan(r, t).identity == Some(Identity(m, t.name)) && Scan(r, t).discovery.dismissed == ""
  {
    hide Identity;
  }

  /// A pane the user attached is never probed again in the same generation.
  lemma {:induction false} AttachedStays(routes: seq<Route>, ticks: seq<Tick>, generation: nat, k: nat)
    requires Run(routes, ticks, generation) && k < |routes|
    requires routes[0].discovery.manual && routes[0].identity.Some?
    ensures routes[k] == routes[0]
  {
    assert |routes| == |ticks| + 1;
    hide Run;
    if k > 0 {
      AttachedStays(routes, ticks, generation, k - 1);
      FromRun(routes, ticks, generation, k - 1);
      RunGeneration(routes, ticks, generation, k - 1);
    }
  }

  /// What the user attached stays, with the record of that moment: through every look in
  /// the same generation the pane is not probed and shows the identity given.
  lemma AttachStands(routes: seq<Route>, ticks: seq<Tick>, generation: nat, now: int, kind: string, correcting: bool,
                     identity: AgentIdentity, k: nat)
    requires Run(routes, ticks, generation) && k < |routes|
    requires routes[0] == Attach(generation, now, kind, correcting, identity)
    ensures var r := routes[k];
            && r.identity == Some(identity) && r.discovery.manual && r.discovery.generation == generation
            && r.discovery.kind == kind && r.discovery.high && r.discovery.present && r.discovery.dismissed == ""
            && r.discovery.detectedAt == now && r.discovery.lastProbe == now
            && r.discovery.failed == r.discovery.absent == 0
            && r.discovery.evidence == (if correcting then "manual_correction" else "manual_attach")
    ensures k < |ticks| ==> !Probes(routes[k], ticks[k])
  {
    AttachedStays(routes, ticks, generation, k);
    if k < |ticks| { FromRun(routes, ticks, generation, k); }
    hide Run;
  }

  /// The first look in another generation drops what the user attached and shows what a
  /// probe finds there and then.
  lemma AttachEnds(t: Tick, generation: nat, now: int, kind: string, correcting: bool, identity: AgentIdentity)
    requires t.generation != generation && identity.origin == Discovered
    requires t.found.Some? ==> t.found.value.kind != ""
    ensures Scan(Attach(generation, now, kind, correcting, identity), t).identity ==
              if t.running && t.found.Some? then Some(Identity(t.found.value, t.name)) else None
  {
    hide Identity;
  }

  // ---------------------------------------------------------------------------
  // The table of records, updated in place

  function IdentityOf(m: map<string, AgentIdentity>, route: string): Option<AgentIdentity> {
    if route in m then Some(m[route]) else None
  }

  class DiscoveryTable {
    var records: map<string, Discovery>
    /// The identities the panes show, by route.
    var identities: map<string, AgentIdentity>

    constructor ()
      ensures records == map[] && identities == map[]
    {
      records, identities := map[], map[];
    }

    function RouteAt(route: string): Route
      reads this
    {
      Route(if route in records then records[route] else Blank(0), IdentityOf(identities, route))
    }

    /// One look at one pane, step by step.
    method ScanPane(route: string, tick: Tick)
      modifies this
      ensures RouteAt(route) == Scan(old(RouteAt(route)), tick)
      ensures forall other :: other != route ==> RouteAt(other) == old(RouteAt(other))
      ensures records.Keys == old(records.Keys) + {route}
    {
      hide Identity;
      var d := if route in records then records[route] else Blank(0);
      if d.generation != tick.generation {
        var expired := d.manual && route in identities && identities[route].origin == Discovered;
        d := Blank(tick.generation);
        if expired {
          identities := identities - {route};
        }
      }
      var owned := route in identities && identities[route].origin == Discovered;
      var due := d.lastProbe == NEVER || tick.now - d.lastProbe >= PROBE_INTERVAL;
      if (route !in identities || (owned && !d.manual)) && tick.running && due {
        d := d.(lastProbe := tick.now);
        match tick.found
        case Some(m) =>
          d := NoteMatch(route, d, tick, m);
        case None =>
          d := NoteMiss(route, d, tick);
      }
      records := records[route := d];
    }

    /// The probe found a process; the record to keep.
    method NoteMatch(route: string, before: Discovery, tick: Tick, m: Match) returns (d: Discovery)
      modifies `identities
      ensures Route(d, IdentityOf(identities, route)) ==
                Matched(Route(before, IdentityOf(old(identities), route)), tick, m)
      ensures forall other :: other != route ==> IdentityOf(identities, other) == IdentityOf(old(identities), other)
    {
      hide Identity;
      d := before;
      if route !in identities && d.dismissed == m.kind {
        return d.(present := true, absent := 0);
      }
      if d.dismissed != "" && d.dismissed != m.kind {
        d := d.(dismissed := "", absent := 0);
      }
      var newOccupant := route !in identities || identities[route].origin != Discovered
        || identities[route].kind != m.kind;
      d := d.(kind := m.kind, evidence := m.evidence, high := m.high, failed := 0, present := true);
      if newOccupant {
        d := d.(detectedAt := tick.now);
        identities := identities[route := Identity(m, tick.name)];
      }
    }

    /// The probe found nothing; the record to keep.
    method NoteMiss(route: string, before: Discovery, tick: Tick) returns (d: Discovery)
      modifies `identities
      ensures Route(d, IdentityOf(identities, route)) == Missed(Route(before, IdentityOf(old(identities), route)), tick)
      ensures forall other :: other != route ==> IdentityOf(identities, other) == IdentityOf(old(identities), other)
    {
      d := before;
      if route !in identities && d.dismissed != "" {
        d := d.(absent := d.absent + 1);
        if d.absent >= REMOVAL_PROBES {
          d := d.(dismissed := "", absent := 0);
        }
      } else if route in identities && identities[route].origin == Discovered {
        d := d.(present := false, failed := d.failed + 1);
        if d.failed >= REMOVAL_PROBES {
          identities := identities - {route};
          d := Blank(tick.generation);
        }
      }
    }

    /// One look at every pane; the records of panes that are gone are dropped.
    method ScanAll(panes: seq<(string, Tick)>)
      requires forall i, j :: 0 <= i < j < |panes| ==> panes[i].0 != panes[j].0
      modifies this
      ensures forall i :: 0 <= i < |panes| ==> RouteAt(panes[i].0) == Scan(old(RouteAt(panes[i].0)), panes[i].1)
      ensures records.Keys == set i | 0 <= i < |panes| :: panes[i].0
    {
      hide Scan;
      var live: set<string> := {};
      for k := 0 to |panes|
        invariant forall i :: 0 <= i < k ==> RouteAt(panes[i].0) == Scan(old(RouteAt(panes[i].0)), panes[i].1)
        invariant forall i :: k <= i < |panes| ==> RouteAt(panes[i].0) == old(RouteAt(panes[i].0))
        invariant live == set i | 0 <= i < k :: panes[i].0
        invariant live <= records.Keys
      {
        ScanPane(panes[k].0, panes[k].1);
        live := live + {panes[k].0};
      }
      records := map route | route in records && route in live :: records[route];
    }

    method AttachFocused(route: string, generation: nat, now: int, running: bool, kind: string, displayName: string,
                         profileId: string, name: string) returns (ok: bool)
      modifies this
      ensures ok == (kind != "" && displayName != "" && running)
      ensures if ok then
                RouteAt(route) == Attach(generation, now, kind, old(RouteAt(route)).identity.Some?,
                                         AgentIdentity(profileId, kind, displayName, name, Discovered))
              else RouteAt(route) == old(RouteAt(route))
      ensures forall other :: other != route ==> RouteAt(other) == old(RouteAt(other))
    {
      if kind == "" || displayName == "" || !running {
        return false;
      }
      var correcting := route in identities;
      var d := Blank(generation).(lastProbe := now, detectedAt := now, kind := kind);
      d := d.(evidence := if correcting then "manual_correction" else "manual_attach");
      records := records[route := d.(high := true, present := true, manual := true)];
      identities := identities[route := AgentIdentity(profileId, kind, displayName, name, Discovered)];
      return true;
    }

    method DismissFocused(route: string, generation: nat) returns (ok: bool)
      modifies this
      ensures ok == old(RouteAt(route)).identity.Some?
      ensures RouteAt(route) == Dismiss(old(RouteAt(route)), generation)
      ensures forall other :: other != route ==> RouteAt(other) == old(RouteAt(other))
    {
      if route !in identities {
        return false;
      }
      var d := if route in records then records[route] else Blank(0);
      d := d.(generation := generation, dismissed := identities[route].kind);
      d := d.(absent := 0, present := false, manual := false);
      records := records[route := d];
      identities := identities - {route};
      return true;
    }
  }
}
