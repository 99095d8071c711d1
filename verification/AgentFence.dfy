/** Agents as the server reports them: a restart accepted here fences off older
    snapshots until the server has caught up. Instants are integers. */
module AgentFence {
  import opened Identifiers
  import opened SplitTrees
  import opened PaneModel
  import opened TabModel
  import opened SpaceModel

  datatype Lifecycle = Starting | Running | Exited | Failed
  datatype Status = Unknown | Idle | Working | Blocked | Done
  datatype Authority = NoAuthority | DirectHost | ScreenManifest | OfficialIntegration

  datatype Agent = Agent(
    space: int, tab: int, leaf: LeafId, paneId: string, instance: string, kind: string,
    generation: nat, startedAt: int, lifecycle: Lifecycle, lifecycleAt: int, exitCode: Option<int>,
    status: Status, authority: Authority, observation: nat, attention: bool, statusAt: int,
    running: bool, focused: bool)

  datatype Projection = Projection(
    agents: seq<Agent>,
    /// The generation a snapshot must reach before it may replace a restarted agent.
    fences: map<string, nat>,
    /// The observation up to which attention was acknowledged.
    acks: map<string, nat>,
    authoritative: bool)

  const NO_AGENTS := Projection([], map[], map[], false)

  function Instances(agents: seq<Agent>): set<string> {
    set i | 0 <= i < |agents| :: agents[i].instance
  }

  function FirstAgent(agents: seq<Agent>, instance: string): (r: Option<nat>)
    ensures r.Some? <==> instance in Instances(agents)
    ensures r.Some? ==> r.value < |agents| && agents[r.value].instance == instance
    ensures r.Some? ==> forall k :: 0 <= k < r.value ==> agents[k].instance != instance
  {
    if agents == [] then None
    else if agents[0].instance == instance then Some(0)
    else
      assert forall i :: 0 < i < |agents| ==> agents[i] == agents[1..][i - 1];
      assert Instances(agents) == {agents[0].instance} + Instances(agents[1..]);
      match FirstAgent(agents[1..], instance)
      case None => None
      case Some(i) => Some(i + 1)
  }

  /// What is projected for an instance: the first agent of that name.
  function Entry(agents: seq<Agent>, instance: string): Option<Agent> {
    match FirstAgent(agents, instance)
    case None => None
    case Some(i) => Some(agents[i])
  }

  // ---------------------------------------------------------------------------
  // Operations

  /// The first k agents of a snapshot, those behind their fence replaced by what is
  /// projected now; a fence that is reached is taken down on the spot.
  function Sifted(prior: seq<Agent>, fences: map<string, nat>, agents: seq<Agent>,
                  k: nat): (r: (seq<Agent>, map<string, nat>))
    requires k <= |agents|
    ensures |r.0| == k
  {
    if k == 0 then ([], fences)
    else
      var (done, f) := Sifted(prior, fences, agents, k - 1);
      var a := agents[k - 1];
      if a.instance !in f then (done + [a], f)
      else if a.generation >= f[a.instance] then (done + [a], f - {a.instance})
      else (done + [if Entry(prior, a.instance).Some? then Entry(prior, a.instance).value else a], f)
  }

  function Only(m: map<string, nat>, live: set<string>): map<string, nat> {
    map id | id in m && id in live :: m[id]
  }

  function SetAgents(p: Projection, agents: seq<Agent>): Projection {
    var (sifted, fences) := Sifted(p.agents, p.fences, agents, |agents|);
    var live := Instances(sifted);
    Projection(sifted, Only(fences, live), Only(p.acks, live), true)
  }

  function Restarted(a: Agent, generation: nat, now: int): Agent {
    a.(generation := generation, startedAt := now, lifecycle := Starting, lifecycleAt := now, exitCode := None,
       status := Unknown, authority := NoAuthority, observation := 0, attention := false, statusAt := now,
         running := true)
  }

  function NoteRestart(p: Projection, instance: string, generation: nat, now: int): (Projection, bool) {
    if !p.authoritative || generation == 0 then (p, false)
    else
      match FirstAgent(p.agents, instance)
      case None => (p, false)
      case Some(i) =>
        (p.(agents := p.agents[i := Restarted(p.agents[i], generation, now)],
            fences := p.fences[instance := generation]), true)
  }

  /// The agent's pane is the focused one of the active tab of the active Space.
  predicate IsFocused(s: Spaces, a: Agent) {
    match IndexOfSpace(s.spaces, a.space)
    case None => false
    case Some(i) =>
      match IndexOfTab(s.spaces[i].tabs.tabs, a.tab)
      case None => false
      case Some(j) =>
        s.active == a.space && s.spaces[i].tabs.active == a.tab && s.spaces[i].tabs.tabs[j].panes.tree.focused == a.leaf
  }

  /// One agent as shown; a focused one that wants attention is acknowledged.
  function ShownOne(s: Spaces, agent: Agent, acks: map<string, nat>): (Agent, map<string, nat>) {
    var a := agent.(focused := IsFocused(s, agent));
    var acked := if a.focused && a.attention then acks[a.instance := a.observation] else acks;
    (if a.instance in acked && acked[a.instance] >= a.observation then a.(attention := false) else a, acked)
  }

  /// The first k agents as shown, and the acknowledgements made by showing them.
  function Shown(s: Spaces, agents: seq<Agent>, acks: map<string, nat>, k: nat): (r: (seq<Agent>, map<string, nat>))
    requires k <= |agents|
    ensures |r.0| == k
  {
    if k == 0 then ([], acks)
    else
      var (done, acked) := Shown(s, agents, acks, k - 1);
      var (a, acked') := ShownOne(s, agents[k - 1], acked);
      (done + [a], acked')
  }

  function Show(p: Projection, s: Spaces): (Projection, seq<Agent>) {
    var (shown, acks) := Shown(s, p.agents, p.acks, |p.agents|);
    (p.(acks := acks), shown)
  }

  /// The agent's Space can be entered and holds the agent's tab.
  predicate Reaches(s: Spaces, a: Agent) {
    match IndexOfSpace(s.spaces, a.space)
    case None => false
    case Some(i) => (s.active == a.space || ActiveTab(s.spaces[i].tabs).Some?) && a.tab in Ids(s.spaces[i].tabs.tabs)
  }

  /// Navigating to an agent acknowledges it, if its tab could be reached.
  function AcknowledgeFocus(p: Projection, s: Spaces, instance: string): Projection {
    match Entry(p.agents, instance)
    case None => p
    case Some(a) => if Reaches(s, a) && a.attention then p.(acks := p.acks[instance := a.observation]) else p
  }

  /// An agent is reached exactly when activating its Space and then, in the session
  /// that leaves, its tab succeeds.
  lemma ReachesExactly(s: Spaces, a: Agent)
    ensures Reaches(s, a) <==>
              IndexOfSpace(s.spaces, a.space).Some?
              && var (entered, ok) := ActivateSpace(s, a.space);
                 ok && Activate(entered.spaces[IndexOfSpace(s.spaces, a.space).value].tabs, a.tab).1
  {
    hide IndexOfSpace;
  }

  // ---------------------------------------------------------------------------
  // The fence invariant

  /// A fence stands only for a projected agent at exactly the fenced generation,
  /// and acknowledgements only for projected agents.
  ghost predicate FencesOk(p: Projection) {
    && (forall id :: id in p.fences ==>
        id in Instances(p.agents) && Entry(p.agents, id).value.generation == p.fences[id] > 0)
    && (forall id :: id in p.acks ==> id in Instances(p.agents))
    && (!p.authoritative ==> p.agents == [])
  }

  /// Sifting keeps names and order.
  lemma {:induction false} SiftNames(prior: seq<Agent>, fences: map<string, nat>, agents: seq<Agent>, k: nat)
    requires k <= |agents|
    ensures var done := Sifted(prior, fences, agents, k).0;
            forall i :: 0 <= i < k ==> done[i].instance == agents[i].instance
  {
    hide Entry;
    hide Instances;
    if k > 0 {
      SiftNames(prior, fences, agents, k - 1);
      SiftedName(prior, agents[k - 1].instance);
    }
  }

  /// The fences left are those that no agent of the snapshot reached.
  lemma {:induction false} SiftFences(prior: seq<Agent>, fences: map<string, nat>, agents: seq<Agent>, k: nat)
    requires k <= |agents|
    ensures var (done, f) := Sifted(prior, fences, agents, k);
            && (forall id :: id in f <==>
                id in fences && forall i :: 0 <= i < k && agents[i].instance == id ==>
                agents[i].generation < fences[id])
            && (forall id :: id in f ==> f[id] == fences[id])
  {
    hide Instances;
    hide FirstAgent;
    hide Entry;
    if k > 0 {
      SiftFences(prior, fences, agents, k - 1);
    }
  }

  lemma SiftedName(prior: seq<Agent>, instance: string)
    ensures Entry(prior, instance).Some? ==> Entry(prior, instance).value.instance == instance
    ensures Entry(prior, instance).Some? <==> instance in Instances(prior)
  {
    hide FirstAgent;
    hide Instances;
  }

  /// The last of the first k agents, and the fences after it.
  lemma SiftLast(prior: seq<Agent>, fences: map<string, nat>, agents: seq<Agent>, k: nat)
    requires 0 < k <= |agents|
    ensures var (front, f0) := Sifted(prior, fences, agents, k - 1);
            var (done, f) := Sifted(prior, fences, agents, k);
            var a := agents[k - 1];
            && done[..k - 1] == front
            && (a.instance in f ==>
                a.instance in f0
                && done[k - 1] == (if Entry(prior, a.instance).Some? then Entry(prior, a.instance).value else a))
            && (a.instance !in f0 ==> done[k - 1] == a)
            && (forall id :: id in f ==> id in f0)
  {
    hide Entry;
  }

  /// Where a fence is left standing the agent shows what was projected before.
  lemma {:induction false} SiftHeld(prior: seq<Agent>, fences: map<string, nat>, agents: seq<Agent>, k: nat, i: nat)
    requires i < k <= |agents| && agents[i].instance in Sifted(prior, fences, agents, k).1
    requires agents[i].instance in Instances(prior)
    ensures Entry(prior, agents[i].instance) == Some(Sifted(prior, fences, agents, k).0[i])
  {
    SiftLast(prior, fences, agents, k);
    SiftedName(prior, agents[i].instance);
    hide Sifted;
    hide Entry;
    hide Instances;
    var done := Sifted(prior, fences, agents, k).0;
    if i < k - 1 {
      SiftHeld(prior, fences, agents, k - 1, i);
      assert done[i] == done[..k - 1][i];
    }
  }

  /// A fence that is reached lets the snapshot through from then on.
  lemma {:induction false} SiftPasses(prior: seq<Agent>, fences: map<string, nat>, agents: seq<Agent>, k: nat, i: nat)
    requires i < k <= |agents| && agents[i].instance in fences && agents[i].generation >= fences[agents[i].instance]
    ensures Sifted(prior, fences, agents, k).0[i] == agents[i]
  {
    hide Instances;
    hide FirstAgent;
    if k == i + 1 {
      SiftFences(prior, fences, agents, i);
    } else {
      SiftPasses(prior, fences, agents, k - 1, i);
    }
  }

  /// An agent without a fence is taken over from the snapshot.
  lemma {:induction false} SiftUnfenced(prior: seq<Agent>, fences: map<string, nat>, agents: seq<Agent>, k: nat, i: nat)
    requires i < k <= |agents| && agents[i].instance !in fences
    ensures Sifted(prior, fences, agents, k).0[i] == agents[i]
  {
    hide Instances;
    hide FirstAgent;
    if k == i + 1 {
      SiftFences(prior, fences, agents, i);
    } else {
      SiftUnfenced(prior, fences, agents, k - 1, i);
    }
  }

  lemma SameNames(a: seq<Agent>, b: seq<Agent>)
    requires |a| == |b| && forall i :: 0 <= i < |a| ==> a[i].instance == b[i].instance
    ensures Instances(a) == Instances(b)
    ensures forall id :: FirstAgent(a, id) == FirstAgent(b, id)
  {
    hide FirstAgent;
    forall id | id in Instances(a) ensures id in Instances(b) {
      var i :| 0 <= i < |a| && a[i].instance == id;
      assert b[i].instance == id;
    }
    forall id | id in Instances(b) ensures id in Instances(a) {
      var i :| 0 <= i < |b| && b[i].instance == id;
      assert a[i].instance == id;
    }
  }

  lemma SetAgentsKeeps(p: Projection, agents: seq<Agent>)
    requires FencesOk(p)
    ensures FencesOk(SetAgents(p, agents))
    ensures Instances(SetAgents(p, agents).agents) == Instances(agents)
  {
    hide Sifted;
    hide FirstAgent;
    SiftNames(p.agents, p.fences, agents, |agents|);
    SiftFences(p.agents, p.fences, agents, |agents|);
    var (sifted, f) := Sifted(p.agents, p.fences, agents, |agents|);
    SameNames(sifted, agents);
    hide Instances;
    var q := SetAgents(p, agents);
    forall id | id in q.fences
      ensures id in Instances(q.agents) && Entry(q.agents, id).value.generation == q.fences[id]
    {
      FencedEntry(p, agents, id);
    }
  }

  /// Behind a fence that still stands, the entry is the one projected before.
  lemma FencedEntry(p: Projection, agents: seq<Agent>, id: string)
    requires id in Sifted(p.agents, p.fences, agents, |agents|).1 && id in Instances(agents)
             && id in Instances(p.agents)
    ensures var sifted := Sifted(p.agents, p.fences, agents, |agents|).0;
            id in Instances(sifted) && Entry(sifted, id) == Entry(p.agents, id)
  {
    hide FirstAgent;
    hide Sifted;
    SiftNames(p.agents, p.fences, agents, |agents|);
    var sifted := Sifted(p.agents, p.fences, agents, |agents|).0;
    SameNames(sifted, agents);
    hide Instances;
    var i := FirstAgent(sifted, id).value;
    assert agents[i].instance == id;
    SiftHeld(p.agents, p.fences, agents, |agents|, i);
  }

  lemma NoteRestartKeeps(p: Projection, instance: string, generation: nat, now: int)
    requires FencesOk(p)
    ensures FencesOk(NoteRestart(p, instance, generation, now).0)
    ensures NoteRestart(p, instance, generation, now).1 ==>
              Instances(NoteRestart(p, instance, generation, now).0.agents) == Instances(p.agents)
  {
    hide FirstAgent;
    var (q, ok) := NoteRestart(p, instance, generation, now);
    if ok {
      SameNames(p.agents, q.agents);
      hide Instances;
      var i := FirstAgent(p.agents, instance).value;
      forall id | id in q.fences ensures Entry(q.agents, id).value.generation == q.fences[id] {
        if id != instance { assert FirstAgent(p.agents, id).value != i; }
      }
    }
  }

  lemma {:induction false} ShownLaw(s: Spaces, agents: seq<Agent>, acks: map<string, nat>, k: nat)
    requires k <= |agents|
    ensures var (shown, acked) := Shown(s, agents, acks, k);
            && acks.Keys <= acked.Keys && acked.Keys <= acks.Keys + Instances(agents)
            && (forall i :: 0 <= i < k ==> ShownAs(s, agents[i], shown[i]))
  {
    ShownAcks(s, agents, acks, k);
    hide ShownAs;
    hide Instances;
    hide IsFocused;
    hide ShownOne;
    if k > 0 {
      ShownLaw(s, agents, acks, k - 1);
      ShownOneLaw(s, agents[k - 1], Shown(s, agents, acks, k - 1).1);
    }
  }

  /// Showing an agent changes its focus and attention only, and a focused one asks
  /// for no attention.
  ghost predicate ShownAs(s: Spaces, agent: Agent, a: Agent) {
    && a == agent.(focused := IsFocused(s, agent), attention := a.attention)
    && (a.attention ==> agent.attention && !a.focused)
  }

  lemma ShownOneLaw(s: Spaces, agent: Agent, acks: map<string, nat>)
    ensures var (a, acked) := ShownOne(s, agent, acks);
            && ShownAs(s, agent, a)
            && acks.Keys <= acked.Keys && acked.Keys <= acks.Keys + {agent.instance}
  {
    hide IsFocused;
  }

  lemma {:induction false} ShownAcks(s: Spaces, agents: seq<Agent>, acks: map<string, nat>, k: nat)
    requires k <= |agents|
    ensures var acked := Shown(s, agents, acks, k).1;
            acks.Keys <= acked.Keys && acked.Keys <= acks.Keys + Instances(agents)
  {
    hide IsFocused;
    hide ShownOne;
    if k > 0 {
      ShownAcks(s, agents, acks, k - 1);
      ShownOneLaw(s, agents[k - 1], Shown(s, agents, acks, k - 1).1);
      assert agents[k - 1].instance in Instances(agents);
      hide Instances;
    }
  }

  /// When names do not repeat, an agent is shown as wanting attention exactly when
  /// it wants it, is not focused, and its observation is newer than the one
  /// acknowledged.
  lemma {:induction false} AttentionExactly(s: Spaces, agents: seq<Agent>, acks: map<string, nat>, k: nat)
    requires k <= |agents| && forall i, j :: 0 <= i < j < |agents| ==> agents[i].instance != agents[j].instance
    ensures var (shown, acked) := Shown(s, agents, acks, k);
            && (forall i :: 0 <= i < k ==>
                  (shown[i].attention <==>
                     agents[i].attention && !IsFocused(s, agents[i])
                     && !(agents[i].instance in acks && acks[agents[i].instance] >= agents[i].observation)))
            && (forall i :: k <= i < |agents| && agents[i].instance in acked ==>
                  agents[i].instance in acks && acked[agents[i].instance] == acks[agents[i].instance])
            && (forall i :: k <= i < |agents| && agents[i].instance in acks ==> agents[i].instance in acked)
  {
    hide IsFocused;
    if k > 0 {
      AttentionExactly(s, agents, acks, k - 1);
    }
  }

  /// Showing agents keeps the invariant; what is focused asks for no attention.
  lemma ShowKeeps(p: Projection, s: Spaces)
    requires FencesOk(p)
    ensures var (q, shown) := Show(p, s);
            && FencesOk(q) && q == p.(acks := q.acks) && |shown| == |p.agents|
            && (forall i :: 0 <= i < |shown| && shown[i].attention ==>
                p.agents[i].attention && !IsFocused(s, p.agents[i]))
  {
    hide IsFocused;
    hide FirstAgent;
    ShownLaw(s, p.agents, p.acks, |p.agents|);
    hide Instances;
  }

  lemma AcknowledgeKeeps(p: Projection, s: Spaces, instance: string)
    requires FencesOk(p)
    ensures FencesOk(AcknowledgeFocus(p, s, instance))
    ensures AcknowledgeFocus(p, s, instance) == p.(acks := AcknowledgeFocus(p, s, instance).acks)
  {
    hide Reaches;
    hide FirstAgent;
    hide Instances;
  }

  // ---------------------------------------------------------------------------
  // Runs

  datatype Op =
    | Set(agents: seq<Agent>)
    | Note(instance: string, generation: nat, now: int)
    | Display(s: Spaces)
    | Acknowledge(s: Spaces, instance: string)
    | Clear

  function Step(p: Projection, op: Op): Projection {
    match op
    case Set(agents) => SetAgents(p, agents)
    case Note(instance, generation, now) => NoteRestart(p, instance, generation, now).0
    case Display(s) => Show(p, s).0
    case Acknowledge(s, instance) => AcknowledgeFocus(p, s, instance)
    case Clear => NO_AGENTS
  }

  lemma StepKeepsFences(p: Projection, op: Op)
    requires FencesOk(p)
    ensures FencesOk(Step(p, op))
  {
    hide FencesOk;
    match op
    case Set(agents) => SetAgentsKeeps(p, agents);
    case Note(instance, generation, now) => NoteRestartKeeps(p, instance, generation, now);
    case Display(s) => ShowKeeps(p, s);
    case Acknowledge(s, instance) => AcknowledgeKeeps(p, s, instance);
    case Clear => NothingFenced();
  }

  lemma NothingFenced()
    ensures FencesOk(NO_AGENTS)
  {}

  ghost predicate Run(states: seq<Projection>, ops: seq<Op>) {
    && |states| == |ops| + 1 && states[0] == NO_AGENTS
    && forall k :: 0 <= k < |ops| ==> states[k + 1] == Step(states[k], ops[k])
  }

  lemma {:induction false} RunKeepsFences(states: seq<Projection>, ops: seq<Op>, k: nat)
    requires Run(states, ops) && k < |states|
    ensures FencesOk(states[k])
  {
    hide FencesOk;
    hide Step;
    if k == 0 {
      NothingFenced();
    } else {
      RunKeepsFences(states, ops, k - 1);
      StepKeepsFences(states[k - 1], ops[k - 1]);
    }
  }

  /// The operation lifts the fence at generation g of an instance: a snapshot that
  /// reaches g or omits the instance, a further restart, or a clear.
  ghost predicate Lifts(op: Op, instance: string, g: nat) {
    match op
    case Set(agents) =>
      || instance !in Instances(agents)
      || exists i :: 0 <= i < |agents| && agents[i].instance == instance && agents[i].generation >= g
    case Note(other, generation, _) => other == instance && generation != 0
    case Display(_) => false
    case Acknowledge(_, _) => false
    case Clear => true
  }

  /// A restart of another agent leaves this one alone.
  lemma OtherNoted(p: Projection, other: string, generation: nat, now: int, instance: string)
    requires instance in Instances(p.agents) && (other != instance || generation == 0)
    ensures var q := NoteRestart(p, other, generation, now).0;
            Entry(q.agents, instance) == Entry(p.agents, instance)
            && (instance in p.fences ==> instance in q.fences && q.fences[instance] == p.fences[instance])
  {
    hide FirstAgent;
    var (q, ok) := NoteRestart(p, other, generation, now);
    if ok {
      SameNames(p.agents, q.agents);
      hide Instances;
      assert FirstAgent(p.agents, instance).value != FirstAgent(p.agents, other).value;
    }
  }

  /// While a fence stands, an operation that does not lift it leaves the fence and
  /// the whole projected entry as they are.
  lemma FenceHolds(p: Projection, op: Op, instance: string, g: nat)
    requires FencesOk(p) && instance in p.fences && p.fences[instance] == g && !Lifts(op, instance, g)
    ensures var q := Step(p, op);
            instance in q.fences && q.fences[instance] == g && Entry(q.agents, instance) == Entry(p.agents, instance)
  {
    hide FirstAgent;
    match op
    case Set(agents) =>
      hide Sifted;
      SiftNames(p.agents, p.fences, agents, |agents|);
      SiftFences(p.agents, p.fences, agents, |agents|);
      var (sifted, f) := Sifted(p.agents, p.fences, agents, |agents|);
      SameNames(sifted, agents);
      hide Instances;
      FencedEntry(p, agents, instance);
    case Note(other, generation, now) => OtherNoted(p, other, generation, now, instance);
    case Display(s) => ShowKeeps(p, s);
    case Acknowledge(s, other) => AcknowledgeKeeps(p, s, other);
    case Clear =>
  }

  /// The entry of an agent that was just started again: nothing is known of the new
  /// run yet, and where the agent lives is as before.
  ghost predicate StartedAgain(before: Agent, a: Agent, g: nat, now: int) {
    && a.generation == g && a.lifecycle == Starting && a.running && a.exitCode == None
    && a.status == Unknown && a.authority == NoAuthority && a.observation == 0 && !a.attention
    && a.startedAt == now && a.lifecycleAt == now && a.statusAt == now
    && a.space == before.space && a.tab == before.tab && a.leaf == before.leaf && a.paneId == before.paneId
    && a.instance == before.instance && a.kind == before.kind && a.focused == before.focused
  }

  /// After an accepted restart at generation g, and through any operations that do
  /// not lift its fence, the projected entry is the restarted one, unchanged.
  lemma {:induction false} RestartedStays(states: seq<Projection>, ops: seq<Op>, i: nat, j: nat, instance: string,
                                          g: nat, now: int)
    requires Run(states, ops) && i < j < |states|
    requires ops[i] == Note(instance, g, now) && NoteRestart(states[i], instance, g, now).1
    requires forall k :: i < k < j ==> !Lifts(ops[k], instance, g)
    ensures instance in states[j].fences && states[j].fences[instance] == g
    ensures instance in Instances(states[i].agents) && instance in Instances(states[j].agents)
    ensures StartedAgain(Entry(states[i].agents, instance).value, Entry(states[j].agents, instance).value, g, now)
  {
    hide Step;
    hide FencesOk;
    hide Lifts;
    if j == i + 1 {
      RestartTakes(states[i], instance, g, now);
    } else {
      RestartedStays(states, ops, i, j - 1, instance, g, now);
      RunKeepsFences(states, ops, j - 1);
      FenceHolds(states[j - 1], ops[j - 1], instance, g);
    }
  }

  lemma RestartTakes(p: Projection, instance: string, g: nat, now: int)
    requires NoteRestart(p, instance, g, now).1
    ensures var q := Step(p, Note(instance, g, now));
            && instance in q.fences && q.fences[instance] == g && instance in Instances(p.agents)
            && instance in Instances(q.agents)
            && StartedAgain(Entry(p.agents, instance).value, Entry(q.agents, instance).value, g, now)
  {
    hide FirstAgent;
    SameNames(p.agents, NoteRestart(p, instance, g, now).0.agents);
    hide Instances;
  }

  /// Agents without a fence are shown as the snapshot has them, in its order.
  lemma UnfencedShowsSnapshot(p: Projection, agents: seq<Agent>, i: nat)
    requires i < |agents| && agents[i].instance !in p.fences
    ensures var q := SetAgents(p, agents); |q.agents| == |agents| && q.agents[i] == agents[i]
  {
    SiftUnfenced(p.agents, p.fences, agents, |agents|, i);
    hide Sifted;
  }

  /// A snapshot that lifts a fence gets through: the agent is gone, or shows what
  /// the snapshot says, when the snapshot names it once.
  lemma LiftedShowsSnapshot(p: Projection, agents: seq<Agent>, instance: string, i: nat)
    requires FencesOk(p) && instance in p.fences && Lifts(Set(agents), instance, p.fences[instance])
    requires instance in Instances(agents) ==>
               i < |agents| && agents[i].instance == instance
                 && forall k :: 0 <= k < |agents| && agents[k].instance == instance ==> k == i
    ensures var q := SetAgents(p, agents);
            && instance !in q.fences
            && Entry(q.agents, instance) == if instance in Instances(agents) then Some(agents[i]) else None
  {
    hide FirstAgent;
    hide Sifted;
    SiftNames(p.agents, p.fences, agents, |agents|);
    SiftFences(p.agents, p.fences, agents, |agents|);
    var (sifted, f) := Sifted(p.agents, p.fences, agents, |agents|);
    SameNames(sifted, agents);
    if instance in Instances(agents) {
      SiftPasses(p.agents, p.fences, agents, |agents|, i);
      hide Instances;
      var k := FirstAgent(sifted, instance).value;
      assert agents[k].instance == instance;
    }
  }
}
