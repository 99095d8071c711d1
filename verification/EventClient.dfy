/** A client that follows the journal by cursor and knows the agents by replaying
    what it was delivered. */
module EventClient {
  import opened Identifiers
  import opened AgentFence
  import opened EventJournal

  // ---------------------------------------------------------------------------
  // The journal only grows

  /// The journal is in order and everything recorded before is still in its log.
  ghost predicate Extends(j: Journal, q: Journal) {
    JournalOk(q) && j.log <= q.log
  }

  lemma RecordExtends(j: Journal, e: Event)
    requires JournalOk(j)
    ensures Extends(j, Record(j, e))
  {
    RecordKeeps(j, e);
    hide JournalOk;
  }

  lemma RecordAllExtends(j: Journal, es: seq<Event>)
    requires JournalOk(j)
    ensures Extends(j, RecordAll(j, es))
  {
    RecordAllKeeps(j, es);
    hide JournalOk;
    hide RecordAll;
  }

  /// Noting states leaves log and retained events alone.
  lemma WithStates(j: Journal, q: Journal)
    requires JournalOk(j) && q.log == j.log && q.events == j.events && q.next == j.next
    ensures JournalOk(q)
  {}

  lemma {:induction false} NotedExtends(j: Journal, agents: seq<Agent>, k: nat)
    requires JournalOk(j) && k <= |agents|
    ensures Extends(j, Noted(j, agents, k))
  {
    hide JournalOk;
    hide RecordAll;
    hide Difference;
    if k > 0 {
      NotedExtends(j, agents, k - 1);
      var before, a := Noted(j, agents, k - 1), agents[k - 1];
      var recorded := RecordAll(before, Difference(before.states, a));
      RecordAllExtends(before, Difference(before.states, a));
      WithStates(recorded, recorded.(states := before.states[a.instance := StateOf(a)]));
    }
  }

  lemma ObserveExtends(j: Journal, space: int, agents: seq<Agent>, order: seq<string>)
    requires JournalOk(j)
    ensures Extends(j, Observe(j, space, agents, order))
  {
    hide JournalOk;
    hide RecordAll;
    hide Record;
    hide Noted;
    hide Departures;
    hide Instances;
    if j.observedOnce && space != j.observedSpace {
      RecordExtends(j, SpaceFocused(space));
      WithStates(Record(j, SpaceFocused(space)), NotedSpace(j, space));
    } else {
      WithStates(j, NotedSpace(j, space));
    }
    var q := Noted(NotedSpace(j, space), agents, |agents|);
    NotedExtends(NotedSpace(j, space), agents, |agents|);
    RecordAllExtends(q, Departures(order, Instances(agents)));
    WithStates(RecordAll(q, Departures(order, Instances(agents))), Observe(j, space, agents, order));
  }

  // ---------------------------------------------------------------------------
  // Looks, other events and fetches, interleaved

  datatype ClientOp =
    | Look(space: int, agents: seq<Agent>, order: seq<string>)
    | Report(eventType: string, payload: string)
    | Fetch(limit: nat)

  ghost function ClientStep(r: Reader, op: ClientOp): Reader {
    match op
    case Look(space, agents, order) => r.(journal := Observe(r.journal, space, agents, order))
    case Report(eventType, payload) => r.(journal := Record(r.journal, Other(eventType, payload)))
    case Fetch(limit) => ReaderStep(r, Read(limit))
  }

  /// The client's first fetch comes before anything was evicted, and none is refused.
  ghost predicate Served(r: Reader) {
    if r.cursor == 0 then Evicted(r.journal) == 0 else !Expired(r.journal, r.cursor)
  }

  ghost predicate Allowed(r: Reader, op: ClientOp) {
    match op
    case Look(space, agents, order) =>
      forall id :: id in order <==> id in Noted(NotedSpace(r.journal, space), agents, |agents|).states
    case Report(_, _) => true
    case Fetch(limit) => limit >= 1 && Served(r)
  }

  /// A run from an empty journal and a client that has seen nothing.
  ghost predicate ClientRun(states: seq<Reader>, ops: seq<ClientOp>) {
    && |states| == |ops| + 1 && states[0] == Reader(EMPTY_JOURNAL, 0, [])
    && (forall k :: 0 <= k < |states| ==> states[k].journal.next < CURSORS)
    && forall k :: 0 <= k < |ops| ==> Allowed(states[k], ops[k]) && states[k + 1] == ClientStep(states[k], ops[k])
  }

  /// What was delivered is the log up to the cursor.
  ghost predicate Followed(r: Reader) {
    && JournalOk(r.journal) && Sourced(r.journal)
    && |r.delivered| == r.cursor <= |r.journal.log|
    && forall i :: 0 <= i < r.cursor ==> r.delivered[i] == Entry(i + 1, r.journal.log[i])
  }

  lemma GrowsFollowed(r: Reader, q: Journal)
    requires Followed(r) && Extends(r.journal, q) && Sourced(q)
    ensures Followed(r.(journal := q))
  {
    hide JournalOk;
    hide Sourced;
  }

  lemma FetchFollowed(r: Reader, limit: nat)
    requires Followed(r) && limit >= 1 && Served(r) && r.journal.next < CURSORS
    ensures Followed(ReaderStep(r, Read(limit)))
  {
    var reading := ReadAfter(r.journal, r.cursor, limit);
    var q := ReaderStep(r, Read(limit));
    ReadLaw(r.journal, r.cursor, limit);
    assert q.delivered == r.delivered + reading.events;
    hide ReadAfter;
    hide JournalOk;
    hide Sourced;
    hide Gone;
  }

  lemma ClientStepFollowed(r: Reader, op: ClientOp)
    requires Followed(r) && Allowed(r, op) && r.journal.next < CURSORS
    ensures Followed(ClientStep(r, op))
  {
    hide Sourced;
    hide JournalOk;
    match op
    case Look(space, agents, order) =>
      hide Observe;
      ObserveExtends(r.journal, space, agents, order);
      ObserveSourced(r.journal, space, agents, order);
      GrowsFollowed(r, Observe(r.journal, space, agents, order));
    case Report(eventType, payload) =>
      hide Record;
      RecordExtends(r.journal, Other(eventType, payload));
      OtherSourced(r.journal, eventType, payload);
      GrowsFollowed(r, Record(r.journal, Other(eventType, payload)));
    case Fetch(limit) =>
      hide ReaderStep;
      FetchFollowed(r, limit);
  }

  lemma {:induction false} RunFollowed(states: seq<Reader>, ops: seq<ClientOp>, k: nat)
    requires ClientRun(states, ops) && k <= |ops|
    ensures Followed(states[k])
  {
    hide Followed;
    hide ClientStep;
    hide Allowed;
    if k == 0 {
      NothingFollowed();
    } else {
      RunFollowed(states, ops, k - 1);
      ClientStepFollowed(states[k - 1], ops[k - 1]);
    }
  }

  lemma NothingFollowed()
    ensures Followed(Reader(EMPTY_JOURNAL, 0, []))
  {
    EmptySourced();
  }

  function EventsOf(entries: seq<Entry>): (es: seq<Event>)
    ensures |es| == |entries|
  {
    seq(|entries|, i requires 0 <= i < |entries| => entries[i].event)
  }

  /// What a client believes that replays, from nothing, what it was delivered.
  function ClientBelief(r: Reader): map<string, Core> {
    Believed(EventsOf(r.delivered))
  }

  /// Over any interleaving of looks, other events and fetches: a client that began
  /// before anything was evicted and was never refused believes exactly what the
  /// log up to its cursor says; and once it has caught up, exactly the generation,
  /// lifecycle and status of every agent the journal knows.
  lemma ClientRebuildsStates(states: seq<Reader>, ops: seq<ClientOp>, k: nat)
    requires ClientRun(states, ops) && k <= |ops|
    ensures var r := states[k];
            && r.cursor <= |r.journal.log| && ClientBelief(r) == Believed(r.journal.log[..r.cursor])
            && (r.cursor == |r.journal.log| ==>
                  && (forall id :: id in ClientBelief(r) <==> id in r.journal.states)
                  && (forall id :: id in r.journal.states ==> ClientBelief(r)[id] == CoreOf(r.journal.states[id])))
  {
    RunFollowed(states, ops, k);
    hide ClientRun;
    hide Believed;
    hide JournalOk;
    var r := states[k];
    assert EventsOf(r.delivered) == r.journal.log[..r.cursor];
    if r.cursor == |r.journal.log| {
      assert r.journal.log[..r.cursor] == r.journal.log;
    }
  }
}
