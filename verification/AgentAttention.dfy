/** Acknowledged attention: once the user has seen an agent's state, it does not ask
    again, until the acknowledgement is dropped or moved back. */
module AgentAttention {
  import opened Identifiers
  import opened SplitTrees
  import opened PaneModel
  import opened TabModel
  import opened TabControllers
  import opened SpaceModel
  import opened AgentFence

  // ---------------------------------------------------------------------------
  // Which agent is looked at

  /// An agent is focused exactly when its Space is the active one, its tab that Space's
  /// active tab, and its pane the focused one there.
  lemma FocusedExactly(s: Spaces, a: Agent, i: nat)
    requires SpacesOk(s) && i < |s.spaces| && s.spaces[i].id == s.active
    ensures IsFocused(s, a) <==>
              && a.space == s.active && ActiveTab(s.spaces[i].tabs).Some?
              && ActiveTab(s.spaces[i].tabs).value.id == a.tab
              && ActiveTab(s.spaces[i].tabs).value.panes.tree.focused == a.leaf
  {
    hide TabsOk;
    hide IndexOfTab;
    assert SpaceIds(s.spaces)[i] == s.active;
    var j := IndexOfSpace(s.spaces, s.active).value;
    hide IndexOfSpace;
    assert SpaceIds(s.spaces)[j] == s.active;
  }

  /// At most one pane is looked at.
  lemma FocusIsOne(s: Spaces, a: Agent, b: Agent)
    requires IsFocused(s, a) && IsFocused(s, b)
    ensures a.space == b.space && a.tab == b.tab && a.leaf == b.leaf
  {
    hide IndexOfSpace;
    hide IndexOfTab;
  }

  // ---------------------------------------------------------------------------
  // Acknowledgements

  /// The agent's attention was acknowledged at observation n or a later one.
  ghost predicate AckedAt(p: Projection, instance: string, n: nat) {
    instance in p.acks && p.acks[instance] >= n
  }

  ghost predicate NamesDiffer(agents: seq<Agent>) {
    forall i, j :: 0 <= i < j < |agents| ==> agents[i].instance != agents[j].instance
  }

  /// The i-th agent has this name and, focused, wants attention at an observation below n.
  ghost predicate SeenEarlier(s: Spaces, agents: seq<Agent>, i: int, instance: string, n: nat) {
    && 0 <= i < |agents| && agents[i].instance == instance
    && agents[i].attention && IsFocused(s, agents[i]) && agents[i].observation < n
  }

  /// The operation takes the acknowledgement of an agent at n away: a snapshot omits the
  /// agent, the state is cleared, or the agent is looked at, wanting attention, when its
  /// observation is below n; the last look counts, not the latest observation.
  ghost predicate Unacknowledges(p: Projection, op: Op, instance: string, n: nat) {
    match op
    case Set(agents) => instance !in Instances(agents)
    case Note(_, _, _) => false
    case Display(s) => exists i :: SeenEarlier(s, p.agents, i, instance, n)
    case Acknowledge(s, other) =>
      && other == instance && instance in Instances(p.agents)
      && var a := Entry(p.agents, instance).value; Reaches(s, a) && a.attention && a.observation < n
    case Clear => true
  }

  // ---------------------------------------------------------------------------
  // One operation

  /// A snapshot keeps the acknowledgements of the agents it names, as they are, and
  /// drops the others.
  lemma SnapshotAcks(p: Projection, agents: seq<Agent>, instance: string)
    ensures var q := SetAgents(p, agents);
            && (instance in q.acks <==> instance in p.acks && instance in Instances(agents))
            && (instance in q.acks ==> q.acks[instance] == p.acks[instance])
  {
    hide Sifted;
    hide FirstAgent;
    SiftNames(p.agents, p.fences, agents, |agents|);
    SameNames(Sifted(p.agents, p.fences, agents, |agents|).0, agents);
    hide Instances;
  }

  /// Showing agents keeps an acknowledgement at n unless one of that name is seen below n.
  lemma {:induction false} ShownKeepsAck(s: Spaces, agents: seq<Agent>, acks: map<string, nat>, k: nat,
                                         instance: string, n: nat)
    requires k <= |agents| && instance in acks && acks[instance] >= n
    requires forall i :: !SeenEarlier(s, agents, i, instance, n)
    ensures var acked := Shown(s, agents, acks, k).1; instance in acked && acked[instance] >= n
  {
    hide IsFocused;
    if k > 0 {
      ShownKeepsAck(s, agents, acks, k - 1, instance, n);
      assert !SeenEarlier(s, agents, k - 1, instance, n);
    }
  }

  /// Where an acknowledgement at n stands, no agent of that name asks for attention at
  /// an observation up to n.
  lemma {:induction false} ShownQuiet(s: Spaces, agents: seq<Agent>, acks: map<string, nat>, k: nat,
                                      instance: string, n: nat)
    requires k <= |agents| && instance in acks && acks[instance] >= n
    requires forall i :: !SeenEarlier(s, agents, i, instance, n)
    ensures forall i :: 0 <= i < k && agents[i].instance == instance && agents[i].observation <= n ==>
              !Shown(s, agents, acks, k).0[i].attention
  {
    hide IsFocused;
    if k > 0 {
      ShownQuiet(s, agents, acks, k - 1, instance, n);
      ShownKeepsAck(s, agents, acks, k - 1, instance, n);
      assert !SeenEarlier(s, agents, k - 1, instance, n);
      hide SeenEarlier;
    }
  }

  /// An agent that is seen below n is acknowledged there and no longer at n.
  lemma {:induction false} ShownMovesBack(s: Spaces, agents: seq<Agent>, acks: map<string, nat>, k: nat, i: nat,
                                          instance: string, n: nat)
    requires i < k <= |agents| && NamesDiffer(agents) && SeenEarlier(s, agents, i, instance, n)
    ensures var acked := Shown(s, agents, acks, k).1; instance in acked && acked[instance] < n
  {
    hide IsFocused;
    if i < k - 1 {
      ShownMovesBack(s, agents, acks, k - 1, i, instance, n);
    }
  }

  /// An operation keeps an acknowledgement at n, unless it takes it away; and then it is
  /// gone if the agents' names differ.
  lemma StepKeepsAck(p: Projection, op: Op, instance: string, n: nat)
    requires AckedAt(p, instance, n)
    ensures !Unacknowledges(p, op, instance, n) ==> AckedAt(Step(p, op), instance, n)
    ensures NamesDiffer(p.agents) && Unacknowledges(p, op, instance, n) ==> !AckedAt(Step(p, op), instance, n)
  {
    hide IsFocused;
    hide Reaches;
    hide FirstAgent;
    hide Instances;
    match op
    case Set(agents) => SnapshotAcks(p, agents, instance);
    case Display(s) =>
      hide NamesDiffer;
      hide SeenEarlier;
      if i :| SeenEarlier(s, p.agents, i, instance, n) {
        if NamesDiffer(p.agents) { SeenIs(s, p.agents, p.acks, i, instance, n); }
      } else {
        ShownKeepsAck(s, p.agents, p.acks, |p.agents|, instance, n);
      }
      hide Shown;
    case _ =>
  }

  lemma SeenIs(s: Spaces, agents: seq<Agent>, acks: map<string, nat>, i: int, instance: string, n: nat)
    requires NamesDiffer(agents) && SeenEarlier(s, agents, i, instance, n)
    ensures var acked := Shown(s, agents, acks, |agents|).1; instance in acked && acked[instance] < n
  {
    hide IsFocused;
    hide Shown;
    ShownMovesBack(s, agents, acks, |agents|, i, instance, n);
  }

  /// Looking at an agent that wants attention acknowledges it.
  lemma {:induction false} FocusAcknowledges(s: Spaces, agents: seq<Agent>, acks: map<string, nat>, k: nat, i: nat)
    requires i < k <= |agents| && NamesDiffer(agents) && agents[i].attention && IsFocused(s, agents[i])
    ensures var acked := Shown(s, agents, acks, k).1;
            agents[i].instance in acked && acked[agents[i].instance] == agents[i].observation
  {
    hide IsFocused;
    if i < k - 1 {
      FocusAcknowledges(s, agents, acks, k - 1, i);
    }
  }

  // ---------------------------------------------------------------------------
  // Over runs

  /// An agent acknowledged at n stays so, and is never shown asking for attention at an
  /// observation up to n, through whatever snapshots, restarts and displays follow, as
  /// long as none of them takes the acknowledgement away.
  lemma {:induction false} AcknowledgedStaysQuiet(states: seq<Projection>, ops: seq<Op>, i: nat, j: nat,
                                                  instance: string, n: nat, s: Spaces)
    requires Run(states, ops) && i <= j < |states| && AckedAt(states[i], instance, n)
    requires forall k :: i <= k < j ==> !Unacknowledges(states[k], ops[k], instance, n)
    ensures AckedAt(states[j], instance, n)
    ensures !Unacknowledges(states[j], Display(s), instance, n) ==>
              forall k :: (0 <= k < |states[j].agents| && states[j].agents[k].instance == instance
                           && states[j].agents[k].observation <= n) ==> !Show(states[j], s).1[k].attention
    decreases j
  {
    hide Step;
    hide IsFocused;
    if i < j {
      AcknowledgedStaysQuiet(states, ops, i, j - 1, instance, n, s);
      StepKeepsAck(states[j - 1], ops[j - 1], instance, n);
    }
    if !Unacknowledges(states[j], Display(s), instance, n) {
      ShownQuiet(s, states[j].agents, states[j].acks, |states[j].agents|, instance, n);
    }
    hide SeenEarlier;
    hide Shown;
  }

  const NOWHERE := Spaces([], -1, 0)

  /// The agent, wanting attention at observation n.
  function Wanting(agent: Agent, n: nat): Agent {
    agent.(attention := true, observation := n)
  }

  /// An acknowledgement can go back: an agent is seen at observation 7, seen again at 3,
  /// and then asks for attention at 5 though every snapshot named it.
  lemma AcknowledgementGoesBack(s: Spaces, agent: Agent)
    requires IsFocused(s, agent)
    ensures var seen := Step(Step(NO_AGENTS, Set([Wanting(agent, 7)])), Display(s));
            var again := Step(Step(seen, Set([Wanting(agent, 3)])), Display(s));
            var shown := Show(Step(again, Set([Wanting(agent, 5)])), NOWHERE).1;
            && AckedAt(seen, agent.instance, 7)
            && |shown| == 1 && shown[0].instance == agent.instance && shown[0].observation == 5 && shown[0].attention
  {
    SetThenShow(NO_AGENTS, s, agent, 7);
    var seen := Step(Step(NO_AGENTS, Set([Wanting(agent, 7)])), Display(s));
    SetThenShow(seen, s, agent, 3);
    var again := Step(Step(seen, Set([Wanting(agent, 3)])), Display(s));
    SetOne(again, Wanting(agent, 5));
    AsksUnseen(SetAgents(again, [Wanting(agent, 5)]), Wanting(agent, 5));
    hide SetAgents;
    hide Show;
    hide IsFocused;
  }

  lemma SetThenShow(p: Projection, s: Spaces, agent: Agent, n: nat)
    requires p.fences == map[] && IsFocused(s, agent)
    ensures var q := Step(Step(p, Set([Wanting(agent, n)])), Display(s));
            q.fences == map[] && agent.instance in q.acks && q.acks[agent.instance] == n
  {
    var a := Wanting(agent, n);
    SetOne(p, a);
    var q := SetAgents(p, [a]);
    assert IsFocused(s, a);
    hide IsFocused;
    FocusAcknowledges(s, [a], q.acks, 1, 0);
    hide SetAgents;
    hide Shown;
  }

  lemma SetOne(p: Projection, a: Agent)
    requires p.fences == map[]
    ensures var q := SetAgents(p, [a]);
            && q.agents == [a] && q.fences == map[]
            && (a.instance in q.acks <==> a.instance in p.acks)
            && (a.instance in p.acks ==> q.acks[a.instance] == p.acks[a.instance])
  {
    SnapshotAcks(p, [a], a.instance);
    assert [a][0].instance in Instances([a]);
    assert Sifted(p.agents, p.fences, [a], 0) == ([], map[]);
    assert [] + [a] == [a];
    hide Instances;
    hide Entry;
  }

  lemma AsksUnseen(p: Projection, a: Agent)
    requires p.agents == [a] && a.attention && a.instance in p.acks && p.acks[a.instance] < a.observation
    ensures var shown := Show(p, NOWHERE).1;
            |shown| == 1 && shown[0] == a.(focused := false)
  {
    assert Shown(NOWHERE, p.agents, p.acks, 0) == ([], p.acks);
  }
}
