/** What else a client can tell from the events: which Space is active, and which agents
    are in front as far as it was told. */
module EventViews {
  import opened Identifiers
  import opened AgentFence
  import opened EventJournal
  import opened EventClient

  /// The Space last reported as entered, and the focus last reported of each agent.
  datatype Seen = Seen(space: Option<int>, focus: map<string, bool>)

  const UNTOLD := Seen(None, map[])

  function Told(s: Seen, e: Event): Seen {
    match e
    case SpaceFocused(space) => s.(space := Some(space))
    case Added(id, _, _, _) => s.(focus := s.focus - {id})
    case Changed(id, _, _, _, focused) => s.(focus := s.focus[id := focused])
    case Removed(id) => s.(focus := s.focus - {id})
    case Other(_, _) => s
  }

  function SeenOf(log: seq<Event>): Seen {
    if log == [] then UNTOLD else Told(SeenOf(log[..|log| - 1]), log[|log| - 1])
  }

  /// The Space to be taken as active when the first look was at this one.
  function SpaceNow(s: Seen, first: int): int {
    if s.space.Some? then s.space.value else first
  }

  /// The events tell the active Space, once there was a look, and of the focus of agents
  /// nothing that is not so.
  ghost predicate Mirrors(j: Journal, first: int) {
    && (if j.observedOnce then j.observedSpace == SpaceNow(SeenOf(j.log), first) else SeenOf(j.log).space.None?)
    && forall id :: id in SeenOf(j.log).focus ==>
         id in j.states && j.states[id].focused == SeenOf(j.log).focus[id]
  }

  // ---------------------------------------------------------------------------
  // One look

  lemma RecordSeen(j: Journal, e: Event)
    ensures var q := Record(j, e);
            && SeenOf(q.log) == Told(SeenOf(j.log), e)
            && q.states == j.states && q.observedOnce == j.observedOnce && q.observedSpace == j.observedSpace
  {
    assert (j.log + [e])[..|j.log|] == j.log;
  }

  /// The journal after one agent was noted.
  function NotedOne(j: Journal, a: Agent): Journal {
    RecordAll(j, Difference(j.states, a)).(states := j.states[a.instance := StateOf(a)])
  }

  lemma NotedOneMirrors(j: Journal, a: Agent, first: int)
    requires Mirrors(j, first)
    ensures var q := NotedOne(j, a);
            Mirrors(q, first) && q.observedOnce == j.observedOnce && q.observedSpace == j.observedSpace
  {
    hide SeenOf;
    hide RecordAll;
    hide Record;
    if a.instance !in j.states {
      var e := Added(a.instance, a.generation, a.lifecycle, a.status);
      RecordOne(j, e);
      RecordSeen(j, e);
    } else if j.states[a.instance] != StateOf(a) {
      var e := Changed(a.instance, a.generation, a.lifecycle, a.status, a.focused);
      RecordOne(j, e);
      RecordSeen(j, e);
    } else {
      NothingRecorded(j);
    }
  }

  lemma {:induction false} NotedMirrors(j: Journal, agents: seq<Agent>, k: nat, first: int)
    requires k <= |agents| && Mirrors(j, first)
    ensures var q := Noted(j, agents, k);
            Mirrors(q, first) && q.observedOnce == j.observedOnce && q.observedSpace == j.observedSpace
  {
    hide Mirrors;
    hide RecordAll;
    hide Difference;
    if k > 0 {
      NotedMirrors(j, agents, k - 1, first);
      NotedOneMirrors(Noted(j, agents, k - 1), agents[k - 1], first);
    }
  }

  /// Departures tell nothing of Spaces, and take what was told of the absent agents listed.
  lemma {:induction false} DeparturesSeen(j: Journal, order: seq<string>, live: set<string>)
    ensures var q := RecordAll(j, Departures(order, live));
            var s, s' := SeenOf(j.log), SeenOf(q.log);
            && q.observedOnce == j.observedOnce && q.observedSpace == j.observedSpace && q.states == j.states
            && s'.space == s.space
            && forall id :: id in s'.focus ==>
                 id in s.focus && s'.focus[id] == s.focus[id] && (id in live || id !in order)
  {
    hide SeenOf;
    hide Record;
    hide RecordAll;
    if order == [] {
      NothingRecorded(j);
    } else {
      var front, last := order[..|order| - 1], order[|order| - 1];
      DeparturesSeen(j, front, live);
      if last !in live {
        RecordAllStep(j, Departures(front, live), Removed(last));
        RecordSeen(RecordAll(j, Departures(front, live)), Removed(last));
      } else {
        assert Departures(order, live) == Departures(front, live);
      }
    }
  }

  lemma NotedSpaceMirrors(j: Journal, space: int, first: int)
    requires Mirrors(j, first) && (!j.observedOnce ==> space == first)
    ensures var q := NotedSpace(j, space);
            Mirrors(q, first) && q.observedOnce && q.observedSpace == space
  {
    RecordSeen(j, SpaceFocused(space));
    hide SeenOf;
    hide Record;
  }

  /// After every look the Space last reported as entered, or the first one when none was
  /// reported yet, is the Space that was looked at.
  lemma ObserveMirrors(j: Journal, space: int, agents: seq<Agent>, order: seq<string>, first: int)
    requires Mirrors(j, first) && (!j.observedOnce ==> space == first)
    requires forall id :: id in order <==> id in Noted(NotedSpace(j, space), agents, |agents|).states
    ensures var q := Observe(j, space, agents, order);
            Mirrors(q, first) && q.observedOnce && q.observedSpace == space
  {
    hide Noted;
    hide NotedSpace;
    hide RecordAll;
    hide Departures;
    hide SeenOf;
    hide Instances;
    NotedSpaceMirrors(j, space, first);
    NotedMirrors(NotedSpace(j, space), agents, |agents|, first);
    DeparturesSeen(Noted(NotedSpace(j, space), agents, |agents|), order, Instances(agents));
  }

  /// A look leaves every agent known as it is; of agents of one name, the last.
  lemma ObservedAsIs(j: Journal, space: int, agents: seq<Agent>, order: seq<string>, i: nat)
    requires i < |agents| && forall m :: i < m < |agents| ==> agents[m].instance != agents[i].instance
    ensures var s, a := Observe(j, space, agents, order).states, agents[i];
            && a.instance in s && s[a.instance].generation == a.generation && s[a.instance].lifecycle == a.lifecycle
            && s[a.instance].status == a.status && s[a.instance].focused == a.focused
  {
    LastKnown(NotedSpace(j, space), agents, |agents|, i);
    hide Noted;
    hide NotedSpace;
    assert agents[i].instance in Instances(agents);
    hide Instances;
  }

  // ---------------------------------------------------------------------------
  // A client over runs

  lemma OtherMirrors(j: Journal, eventType: string, payload: string, first: int)
    requires Mirrors(j, first)
    ensures var q := Record(j, Other(eventType, payload));
            Mirrors(q, first) && q.observedOnce == j.observedOnce
  {
    RecordSeen(j, Other(eventType, payload));
    hide SeenOf;
    hide Record;
  }

  /// The first look of the run is at this Space.
  ghost predicate FirstLook(ops: seq<ClientOp>, first: int) {
    forall i :: 0 <= i < |ops| && ops[i].Look? && (forall k :: 0 <= k < i ==> !ops[k].Look?) ==> ops[i].space == first
  }

  lemma {:induction false} RunMirrors(states: seq<Reader>, ops: seq<ClientOp>, first: int, k: nat)
    requires ClientRun(states, ops) && k <= |ops| && FirstLook(ops, first)
    ensures Mirrors(states[k].journal, first)
    ensures !states[k].journal.observedOnce ==> forall i :: 0 <= i < k ==> !ops[i].Look?
  {
    hide Mirrors;
    if k == 0 {
      EmptyMirrors(first);
    } else {
      RunMirrors(states, ops, first, k - 1);
      var j := states[k - 1].journal;
      match ops[k - 1]
      case Look(space, agents, order) => ObserveMirrors(j, space, agents, order, first);
      case Report(eventType, payload) => OtherMirrors(j, eventType, payload, first);
      case Fetch(_) =>
    }
    hide Observe;
    hide Record;
  }

  lemma EmptyMirrors(first: int)
    ensures Mirrors(EMPTY_JOURNAL, first)
  {}

  /// A client that was served from the start and has caught up knows the active Space,
  /// given the one it began in, and is wrong about the focus of no agent it was told of.
  lemma ClientKnowsSpace(states: seq<Reader>, ops: seq<ClientOp>, first: int, k: nat)
    requires ClientRun(states, ops) && k <= |ops| && FirstLook(ops, first)
    requires states[k].cursor == |states[k].journal.log|
    ensures var j, seen := states[k].journal, SeenOf(EventsOf(states[k].delivered));
            && (j.observedOnce ==> SpaceNow(seen, first) == j.observedSpace)
            && forall id :: id in seen.focus ==> id in j.states && seen.focus[id] == j.states[id].focused
  {
    RunFollowed(states, ops, k);
    RunMirrors(states, ops, first, k);
    hide ClientRun;
    hide SeenOf;
    hide JournalOk;
    hide Sourced;
    assert EventsOf(states[k].delivered) == states[k].journal.log;
  }
}
