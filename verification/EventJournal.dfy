/** A bounded journal of control events with cursors, and the agent states it
    reports by difference. */
module EventJournal {
  import opened Identifiers
  import opened AgentFence

  const MAX_EVENTS: nat := 256
  /// Cursors are 64-bit.
  const CURSORS: nat := 0x1_0000_0000_0000_0000

  datatype AgentState = AgentState(generation: nat, lifecycle: Lifecycle, status: Status, focused: bool)

  datatype Event =
    | SpaceFocused(space: int)
    | Added(instance: string, generation: nat, lifecycle: Lifecycle, status: Status)
    | Changed(instance: string, generation: nat, lifecycle: Lifecycle, status: Status, focused: bool)
    | Removed(instance: string)
    | Other(eventType: string, payload: string)

  datatype Entry = Entry(sequence: nat, event: Event)

  datatype Journal = Journal(
    /// Everything ever recorded; the event with sequence number n is log[n - 1].
    log: seq<Event>,
    /// What is retained.
    events: seq<Entry>,
    next: nat,
    observedSpace: int, observedOnce: bool,
    states: map<string, AgentState>)

  const EMPTY_JOURNAL := Journal([], [], 1, -1, false, map[])

  // ---------------------------------------------------------------------------
  // Recording and reading

  function Record(j: Journal, e: Event): Journal {
    var all := j.events + [Entry(j.next, e)];
    j.(log := j.log + [e], next := j.next + 1, events := if |all| > MAX_EVENTS then all[|all| - MAX_EVENTS..] else all)
  }

  function RecordAll(j: Journal, es: seq<Event>): Journal {
    if es == [] then j else Record(RecordAll(j, es[..|es| - 1]), es[|es| - 1])
  }

  datatype Reading = Reading(events: seq<Entry>, nextCursor: nat, expired: bool)

  function Oldest(j: Journal): nat {
    if j.events == [] then j.next else j.events[0].sequence
  }

  predicate Expired(j: Journal, cursor: nat) {
    cursor != 0 && (cursor + 1) % CURSORS < Oldest(j)
  }

  /// The first events after the cursor, in order, up to the limit; a limit of
  /// zero is no limit.
  function Selected(events: seq<Entry>, cursor: nat, limit: nat): (r: seq<Entry>)
    ensures |r| <= |events|
  {
    if events == [] then []
    else
      var front := Selected(events[..|events| - 1], cursor, limit);
      var last := events[|events| - 1];
      if last.sequence <= cursor || (limit > 0 && |front| == limit) then front else front + [last]
  }

  function ReadAfter(j: Journal, cursor: nat, limit: nat): Reading {
    var expired := Expired(j, cursor);
    var selected := if expired then [] else Selected(j.events, cursor, limit);
    Reading(selected,
            if selected != [] then selected[|selected| - 1].sequence
            else if cursor == 0 && j.events != [] then j.events[|j.events| - 1].sequence
            else cursor,
            expired)
  }

  /// How many events have been evicted.
  ghost function Evicted(j: Journal): int {
    j.next - 1 - |j.events|
  }

  /// Retained events are the latest ones, at most 256, numbered without gaps.
  ghost predicate JournalOk(j: Journal) {
    && j.next == |j.log| + 1 && |j.events| == (if |j.log| < MAX_EVENTS then |j.log| else MAX_EVENTS)
    && forall i :: 0 <= i < |j.events| ==>
         j.events[i].sequence == Evicted(j) + 1 + i && j.events[i].event == j.log[Evicted(j) + i]
  }

  lemma RecordKeeps(j: Journal, e: Event)
    requires JournalOk(j)
    ensures JournalOk(Record(j, e))
  {
    var q := Record(j, e);
    var all := j.events + [Entry(j.next, e)];
    var gone := if |all| > MAX_EVENTS then |all| - MAX_EVENTS else 0;
    assert q.events == all[gone..] && Evicted(q) == Evicted(j) + gone;
    NumberedAfter(j, e, all);
    forall i | 0 <= i < |q.events|
      ensures q.events[i].sequence == Evicted(q) + 1 + i && q.events[i].event == q.log[Evicted(q) + i]
    {
      assert q.events[i] == all[gone + i];
    }
  }

  /// With the new event, before anything is dropped.
  lemma NumberedAfter(j: Journal, e: Event, all: seq<Entry>)
    requires JournalOk(j) && all == j.events + [Entry(j.next, e)]
    ensures forall i :: 0 <= i < |all| ==>
              all[i].sequence == Evicted(j) + 1 + i && all[i].event == (j.log + [e])[Evicted(j) + i]
  {
    forall i | 0 <= i < |all|
      ensures all[i].sequence == Evicted(j) + 1 + i && all[i].event == (j.log + [e])[Evicted(j) + i]
    {
      if i < |j.events| {
        assert all[i] == j.events[i];
      }
    }
  }

  lemma {:induction false} RecordAllKeeps(j: Journal, es: seq<Event>)
    requires JournalOk(j)
    ensures var q := RecordAll(j, es);
            JournalOk(q) && q.log == j.log + es && q.states == j.states
  {
    hide JournalOk;
    if es != [] {
      RecordAllKeeps(j, es[..|es| - 1]);
      RecordKeeps(RecordAll(j, es[..|es| - 1]), es[|es| - 1]);
      assert es == es[..|es| - 1] + [es[|es| - 1]];
    }
  }

  /// How many retained events the cursor has passed, when the first is numbered first.
  function Passed(events: seq<Entry>, cursor: nat, first: nat): (n: nat)
    ensures n <= |events|
  {
    if cursor < first then 0 else if cursor - first + 1 < |events| then cursor - first + 1 else |events|
  }

  /// What is selected are the events right after the cursor, consecutively.
  lemma {:induction false} SelectedLaw(events: seq<Entry>, cursor: nat, limit: nat, first: nat)
    requires forall i :: 0 <= i < |events| ==> events[i].sequence == first + i
    ensures var r := Selected(events, cursor, limit);
            var skip := Passed(events, cursor, first);
            && |r| == (if limit == 0 || |events| - skip < limit then |events| - skip else limit)
            && r == events[skip..skip + |r|]
  {
    if events != [] {
      var front := events[..|events| - 1];
      SelectedLaw(front, cursor, limit, first);
      var r, r0, skip := Selected(events, cursor, limit), Selected(front, cursor, limit), Passed(events, cursor, first);
      hide Selected;
      if r == r0 {
        assert |r0| == 0 || Passed(front, cursor, first) == skip;
      } else {
        assert r == r0 + [events[|events| - 1]];
        assert front[skip..skip + |r0|] == events[skip..skip + |r0|];
      }
    }
  }

  /// The event with that number was recorded but is retained no more.
  ghost predicate Gone(j: Journal, n: nat) {
    0 < n <= |j.log| && forall i :: 0 <= i < |j.events| ==> j.events[i].sequence != n
  }

  lemma GoneLaw(j: Journal, n: nat)
    requires JournalOk(j)
    ensures Gone(j, n) <==> 0 < n <= Evicted(j)
  {
    if n > Evicted(j) && n <= |j.log| {
      assert j.events[n - Evicted(j) - 1].sequence == n;
    }
  }

  /// A cursor that some earlier read returned, or zero.
  ghost predicate KnownCursor(j: Journal, cursor: nat) {
    cursor < j.next < CURSORS
  }

  /// One read: it is refused exactly when an event after a nonzero cursor was
  /// evicted; otherwise it delivers the events right after the cursor without a
  /// gap, as many as there are or as the limit allows, and moves the cursor to the
  /// last of them. From cursor zero it starts at the oldest retained event.
  lemma ReadLaw(j: Journal, cursor: nat, limit: nat)
    requires JournalOk(j) && KnownCursor(j, cursor) && limit >= 1
    ensures var r := ReadAfter(j, cursor, limit);
            var from := if cursor == 0 then Evicted(j) else cursor;
            && (r.expired <==> cursor != 0 && exists n :: cursor < n && Gone(j, n))
            && (r.expired ==> r.events == [] && r.nextCursor == cursor)
            && (!r.expired ==>
                  && (forall i :: 0 <= i < |r.events| ==>
                      from + i < |j.log| && r.events[i] == Entry(from + i + 1, j.log[from + i]))
                  && |r.events| == (if |j.log| - from < limit then |j.log| - from else limit)
                  && r.nextCursor == (if r.events == [] then cursor else from + |r.events|))
  {
    hide Selected;
    ExpiredLaw(j, cursor);
    if !Expired(j, cursor) { DeliveredLaw(j, cursor, limit); }
  }

  lemma OldestLaw(j: Journal)
    requires JournalOk(j)
    ensures Oldest(j) == Evicted(j) + 1 && Evicted(j) >= 0
  {}

  lemma ExpiredLaw(j: Journal, cursor: nat)
    requires JournalOk(j) && KnownCursor(j, cursor)
    ensures Expired(j, cursor) <==> cursor != 0 && cursor < Evicted(j)
    ensures Expired(j, cursor) <==> cursor != 0 && exists n :: cursor < n && Gone(j, n)
  {
    OldestLaw(j);
    hide JournalOk;
    hide Oldest;
    if cursor < Evicted(j) { assert Gone(j, cursor + 1) by { GoneLaw(j, cursor + 1); } }
    forall n | cursor < n && Gone(j, n) ensures cursor < Evicted(j) { GoneLaw(j, n); }
  }

  lemma DeliveredLaw(j: Journal, cursor: nat, limit: nat)
    requires JournalOk(j) && limit >= 1 && cursor <= |j.log| && (cursor == 0 || Evicted(j) <= cursor)
    ensures var r := Selected(j.events, cursor, limit);
            var from := if cursor == 0 then Evicted(j) else cursor;
            && (forall i :: 0 <= i < |r| ==> from + i < |j.log| && r[i] == Entry(from + i + 1, j.log[from + i]))
            && |r| == (if |j.log| - from < limit then |j.log| - from else limit)
  {
    SelectedLaw(j.events, cursor, limit, Evicted(j) + 1);
    hide Selected;
  }

  // ---------------------------------------------------------------------------
  // Interleaved records and reads

  datatype ReaderOp = Write(event: Event) | Read(limit: nat)

  /// A journal, a reader's cursor, and everything delivered to it so far.
  datatype Reader = Reader(journal: Journal, cursor: nat, delivered: seq<Entry>)

  ghost function ReaderStep(r: Reader, op: ReaderOp): Reader {
    match op
    case Write(e) => r.(journal := Record(r.journal, e))
    case Read(limit) =>
      var reading := ReadAfter(r.journal, r.cursor, limit);
      r.(cursor := reading.nextCursor, delivered := r.delivered + reading.events)
  }

  ghost predicate ReaderRun(states: seq<Reader>, ops: seq<ReaderOp>) {
    && |states| == |ops| + 1 && JournalOk(states[0].journal) && states[0].delivered == []
    && KnownCursor(states[0].journal, states[0].cursor)
    && states[|ops|].journal.next < CURSORS
    && forall k :: 0 <= k < |ops| ==>
      states[k + 1] == ReaderStep(states[k], ops[k]) && (ops[k].Read? ==> ops[k].limit >= 1)
  }

  /// Everything delivered so far is the stretch of the log from where the reader
  /// began up to its cursor.
  ghost predicate Gapless(r: Reader, start: nat) {
    && |r.delivered| <= r.cursor <= |r.journal.log|
    && (r.delivered != [] || start != 0 ==> r.cursor > 0)
    && (start != 0 ==> r.cursor - |r.delivered| == start)
    && (r.cursor == 0 ==> r.delivered == [])
    && forall i :: 0 <= i < |r.delivered| ==>
         var n := r.cursor - |r.delivered| + i; r.delivered[i] == Entry(n + 1, r.journal.log[n])
  }

  lemma NextGrows(states: seq<Reader>, ops: seq<ReaderOp>, k: nat)
    requires ReaderRun(states, ops) && k <= |ops|
    ensures states[k].journal.next < CURSORS
    decreases |ops| - k
  {
    if k < |ops| {
      NextGrows(states, ops, k + 1);
      assert states[k + 1] == ReaderStep(states[k], ops[k]);
    }
  }

  lemma WriteGapless(r: Reader, start: nat, e: Event)
    requires JournalOk(r.journal) && Gapless(r, start)
    ensures JournalOk(ReaderStep(r, Write(e)).journal) && Gapless(ReaderStep(r, Write(e)), start)
  {
    RecordKeeps(r.journal, e);
  }

  lemma ReadGapless(r: Reader, start: nat, limit: nat)
    requires JournalOk(r.journal) && Gapless(r, start) && KnownCursor(r.journal, r.cursor) && limit >= 1
    ensures Gapless(ReaderStep(r, Read(limit)), start)
  {
    ReadLaw(r.journal, r.cursor, limit);
    var reading := ReadAfter(r.journal, r.cursor, limit);
    hide ReadAfter;
    var q := ReaderStep(r, Read(limit));
    assert q.delivered == r.delivered + reading.events;
  }

  /// Gap-free delivery: over any interleaving of records and reads, a reader gets
  /// consecutive events, each once and in order, starting right after a nonzero
  /// starting cursor; and at most 256 events are ever retained.
  lemma {:induction false} DeliveryIsGapless(states: seq<Reader>, ops: seq<ReaderOp>, k: nat)
    requires ReaderRun(states, ops) && k <= |ops|
    ensures JournalOk(states[k].journal) && |states[k].journal.events| <= 256
    ensures Gapless(states[k], states[0].cursor)
  {
    hide JournalOk;
    if k > 0 {
      DeliveryIsGapless(states, ops, k - 1);
      NextGrows(states, ops, k - 1);
      assert states[k] == ReaderStep(states[k - 1], ops[k - 1]);
      NextIsCount(states[k - 1].journal);
      hide ReaderStep;
      hide ReaderRun;
      match ops[k - 1]
      case Write(e) => WriteGapless(states[k - 1], states[0].cursor, e);
      case Read(limit) => ReadGapless(states[k - 1], states[0].cursor, limit);
    }
    NextIsCount(states[k].journal);
  }

  lemma NextIsCount(j: Journal)
    requires JournalOk(j)
    ensures j.next == |j.log| + 1 && |j.events| <= 256
  {}

  /// A reader that lags by no more than 256 events is never refused.
  lemma LaggingReaderIsServed(j: Journal, cursor: nat, limit: nat)
    requires JournalOk(j) && KnownCursor(j, cursor) && limit >= 1 && |j.log| - cursor <= 256
    ensures !ReadAfter(j, cursor, limit).expired
  {
    ExpiredLaw(j, cursor);
  }

  // ---------------------------------------------------------------------------
  // Observing agents

  function StateOf(a: Agent): AgentState {
    AgentState(a.generation, a.lifecycle, a.status, a.focused)
  }

  /// What observing one agent records, given what was known of it.
  function Difference(states: map<string, AgentState>, a: Agent): seq<Event> {
    if a.instance !in states then [Added(a.instance, a.generation, a.lifecycle, a.status)]
    else if states[a.instance] != StateOf(a) then [Changed(a.instance, a.generation, a.lifecycle, a.status, a.focused)]
    else []
  }

  /// After the first k agents.
  function Noted(j: Journal, agents: seq<Agent>, k: nat): Journal
    requires k <= |agents|
  {
    if k == 0 then j
    else
      var before := Noted(j, agents, k - 1);
      var a := agents[k - 1];
      RecordAll(before, Difference(before.states, a)).(states := before.states[a.instance := StateOf(a)])
  }

  function Departures(order: seq<string>, live: set<string>): seq<Event> {
    if order == [] then []
    else
      var last := order[|order| - 1];
      Departures(order[..|order| - 1], live) + (if last in live then [] else [Removed(last)])
  }

  /// A change of the active Space is recorded, except at the first look.
  function NotedSpace(j: Journal, space: int): Journal {
    var q := if j.observedOnce && space != j.observedSpace then Record(j, SpaceFocused(space)) else j;
    q.(observedSpace := space, observedOnce := true)
  }

  /// A look at the active Space and the agents; departures are found by walking a
  /// hash map, in the order given.
  function Observe(j: Journal, space: int, agents: seq<Agent>, order: seq<string>): Journal {
    var q := Noted(NotedSpace(j, space), agents, |agents|);
    var live := Instances(agents);
    RecordAll(q, Departures(order, live)).(states := map id | id in q.states && id in live :: q.states[id])
  }

  // ---------------------------------------------------------------------------
  // The stream as the source of the states

  /// The part of an agent's state that every event about it carries.
  datatype Core = Core(generation: nat, lifecycle: Lifecycle, status: Status)

  function CoreOf(s: AgentState): Core {
    Core(s.generation, s.lifecycle, s.status)
  }

  function Replay(m: map<string, Core>, e: Event): map<string, Core> {
    match e
    case Added(id, generation, lifecycle, status) => m[id := Core(generation, lifecycle, status)]
    case Changed(id, generation, lifecycle, status, _) => m[id := Core(generation, lifecycle, status)]
    case Removed(id) => m - {id}
    case _ => m
  }

  /// What a client that saw every event believes.
  function Believed(log: seq<Event>): map<string, Core> {
    if log == [] then map[] else Replay(Believed(log[..|log| - 1]), log[|log| - 1])
  }

  ghost predicate Sourced(j: Journal) {
    && (forall id :: id in Believed(j.log) <==> id in j.states)
    && (forall id :: id in j.states ==> Believed(j.log)[id] == CoreOf(j.states[id]))
  }

  lemma BelievedRecord(j: Journal, e: Event)
    ensures Believed(Record(j, e).log) == Replay(Believed(j.log), e)
  {
    assert (j.log + [e])[..|j.log|] == j.log;
  }

  lemma RecordOne(j: Journal, e: Event)
    ensures RecordAll(j, [e]) == Record(j, e)
  {
    assert [e][..0] == [];
    assert RecordAll(j, []) == j;
  }

  lemma SourcedOne(j: Journal, a: Agent)
    requires Sourced(j)
    ensures var q := RecordAll(j, Difference(j.states, a)).(states := j.states[a.instance := StateOf(a)]); Sourced(q)
  {
    hide Believed;
    hide RecordAll;
    hide Record;
    if a.instance !in j.states {
      var e := Added(a.instance, a.generation, a.lifecycle, a.status);
      RecordOne(j, e);
      BelievedRecord(j, e);
    } else if j.states[a.instance] != StateOf(a) {
      var e := Changed(a.instance, a.generation, a.lifecycle, a.status, a.focused);
      RecordOne(j, e);
      BelievedRecord(j, e);
    } else {
      NothingRecorded(j);
    }
  }

  lemma {:induction false} NotedSourced(j: Journal, agents: seq<Agent>, k: nat)
    requires k <= |agents| && Sourced(j)
    ensures var q := Noted(j, agents, k);
            && Sourced(q)
            && (forall i :: 0 <= i < k ==> agents[i].instance in q.states)
            && (forall id :: id in j.states ==> id in q.states)
            && (forall id :: id in q.states ==> id in j.states || id in Instances(agents))
  {
    hide RecordAll;
    hide Sourced;
    if k > 0 {
      NotedSourced(j, agents, k - 1);
      SourcedOne(Noted(j, agents, k - 1), agents[k - 1]);
      assert agents[k - 1].instance in Instances(agents);
    }
  }

  lemma RecordAllStep(j: Journal, es: seq<Event>, e: Event)
    ensures RecordAll(j, es + [e]) == Record(RecordAll(j, es), e)
  {
    assert (es + [e])[..|es|] == es;
  }

  /// Departures take exactly the absent agents listed out of what is believed.
  lemma {:induction false} DeparturesBelieved(j: Journal, order: seq<string>, live: set<string>)
    ensures var m, m' := Believed(j.log), Believed(RecordAll(j, Departures(order, live)).log);
            && (forall id :: id in m' <==> id in m && (id in live || id !in order))
            && (forall id :: id in m' ==> m'[id] == m[id])
  {
    hide Believed;
    hide Record;
    hide RecordAll;
    if order == [] {
      NothingRecorded(j);
    } else {
      var front, last := order[..|order| - 1], order[|order| - 1];
      DeparturesBelieved(j, front, live);
      if last !in live {
        RecordAllStep(j, Departures(front, live), Removed(last));
        BelievedRecord(RecordAll(j, Departures(front, live)), Removed(last));
      } else {
        assert Departures(order, live) == Departures(front, live);
      }
    }
  }

  lemma NothingRecorded(j: Journal)
    ensures RecordAll(j, []) == j
  {}

  lemma NotedSpaceSourced(j: Journal, space: int)
    requires Sourced(j)
    ensures Sourced(NotedSpace(j, space)) && NotedSpace(j, space).states == j.states
  {
    if j.observedOnce && space != j.observedSpace {
      BelievedRecord(j, SpaceFocused(space));
    }
    hide Believed;
  }

  /// Event sourcing: after every look, replaying the complete stream of events from
  /// nothing gives exactly the generation, lifecycle and status of every agent.
  lemma {:induction false} ObserveSourced(j: Journal, space: int, agents: seq<Agent>, order: seq<string>)
    requires Sourced(j)
    requires forall id :: id in order <==> id in Noted(NotedSpace(j, space), agents, |agents|).states
    ensures Sourced(Observe(j, space, agents, order))
    ensures Observe(j, space, agents, order).states.Keys == Instances(agents)
  {
    hide Noted;
    hide NotedSpace;
    hide RecordAll;
    hide Departures;
    hide Believed;
    NotedSpaceSourced(j, space);
    NotedSourced(NotedSpace(j, space), agents, |agents|);
    var q := Noted(NotedSpace(j, space), agents, |agents|);
    LiveNoted(q, agents);
    hide Instances;
    DeparturesBelieved(q, order, Instances(agents));
  }

  lemma LiveNoted(j: Journal, agents: seq<Agent>)
    requires forall i :: 0 <= i < |agents| ==> agents[i].instance in j.states
    ensures forall id :: id in Instances(agents) ==> id in j.states
  {}

  /// Events recorded by others say nothing about agents.
  lemma OtherSourced(j: Journal, eventType: string, payload: string)
    requires Sourced(j)
    ensures Sourced(Record(j, Other(eventType, payload)))
  {
    BelievedRecord(j, Other(eventType, payload));
    hide Believed;
  }

  lemma EmptySourced()
    ensures Sourced(EMPTY_JOURNAL) && JournalOk(EMPTY_JOURNAL)
  {}

  // ---------------------------------------------------------------------------
  // Looking twice

  /// Agents of one name are reported alike.
  ghost predicate AlikeByName(agents: seq<Agent>) {
    forall i, k :: 0 <= i < k < |agents| && agents[i].instance == agents[k].instance ==>
      StateOf(agents[i]) == StateOf(agents[k])
  }

  /// The agents are known exactly as they are.
  ghost predicate KnownAs(states: map<string, AgentState>, agents: seq<Agent>) {
    forall i :: 0 <= i < |agents| ==> agents[i].instance in states && states[agents[i].instance] == StateOf(agents[i])
  }

  /// Of each name the last agent noted is known.
  lemma {:induction false} LastKnown(j: Journal, agents: seq<Agent>, k: nat, i: nat)
    requires i < k <= |agents| && forall m :: i < m < k ==> agents[m].instance != agents[i].instance
    ensures var s := Noted(j, agents, k).states; agents[i].instance in s && s[agents[i].instance] == StateOf(agents[i])
  {
    hide RecordAll;
    if i < k - 1 {
      LastKnown(j, agents, k - 1, i);
    }
  }

  /// A look at known agents records nothing.
  lemma {:induction false} KnownRecordsNothing(j: Journal, agents: seq<Agent>, k: nat)
    requires k <= |agents| && KnownAs(j.states, agents)
    ensures Noted(j, agents, k) == j
  {
    if k > 0 {
      KnownRecordsNothing(j, agents, k - 1);
      assert j.states[agents[k - 1].instance := StateOf(agents[k - 1])] == j.states;
    }
  }

  lemma NothingNew(j: Journal, a: Agent)
    ensures Difference(j.states, a) == [] ==>
              a.instance in j.states && j.states[a.instance] == StateOf(a)
              && RecordAll(j, []).(states := j.states[a.instance := StateOf(a)]) == j
  {
    NothingRecorded(j);
    if a.instance in j.states && j.states[a.instance] == StateOf(a) {
      assert j.states[a.instance := StateOf(a)] == j.states;
    }
  }

  /// A look that records nothing found every agent known.
  lemma {:induction false} NothingRecordedMeansKnown(j: Journal, agents: seq<Agent>, k: nat)
    requires k <= |agents| && |Noted(j, agents, k).log| == |j.log|
    ensures Noted(j, agents, k) == j
    ensures forall i :: 0 <= i < k ==>
              agents[i].instance in j.states && j.states[agents[i].instance] == StateOf(agents[i])
  {
    if k > 0 {
      var before, a := Noted(j, agents, k - 1), agents[k - 1];
      NotedGrows(j, agents, k - 1);
      RecordAllGrows(before, Difference(before.states, a));
      NothingRecordedMeansKnown(j, agents, k - 1);
      NothingNew(j, a);
    }
  }

  lemma {:induction false} RecordAllGrows(j: Journal, es: seq<Event>)
    ensures |RecordAll(j, es).log| == |j.log| + |es|
  {
    if es != [] {
      RecordAllGrows(j, es[..|es| - 1]);
    }
  }

  lemma {:induction false} NotedGrows(j: Journal, agents: seq<Agent>, k: nat)
    requires k <= |agents|
    ensures |Noted(j, agents, k).log| >= |j.log|
  {
    if k > 0 {
      NotedGrows(j, agents, k - 1);
      RecordAllGrows(Noted(j, agents, k - 1), Difference(Noted(j, agents, k - 1).states, agents[k - 1]));
    }
  }

  /// The last agent of a name.
  lemma {:induction false} LastOf(agents: seq<Agent>, i: nat) returns (k: nat)
    requires i < |agents|
    ensures i <= k < |agents| && agents[k].instance == agents[i].instance
    ensures forall m :: k < m < |agents| ==> agents[m].instance != agents[k].instance
    decreases |agents| - i
  {
    if m :| i < m < |agents| && agents[m].instance == agents[i].instance {
      k := LastOf(agents, m);
    } else {
      k := i;
    }
  }

  lemma AlikeAreKnown(j: Journal, agents: seq<Agent>)
    requires AlikeByName(agents)
    ensures KnownAs(Noted(j, agents, |agents|).states, agents)
  {
    hide Noted;
    forall i | 0 <= i < |agents|
      ensures var s := Noted(j, agents, |agents|).states;
              agents[i].instance in s && s[agents[i].instance] == StateOf(agents[i])
    {
      var k := LastOf(agents, i);
      LastKnown(j, agents, |agents|, k);
    }
  }

  lemma {:induction false} NoDepartures(order: seq<string>, live: set<string>)
    requires forall id :: id in order ==> id in live
    ensures Departures(order, live) == []
  {
    if order != [] {
      NoDepartures(order[..|order| - 1], live);
    }
  }

  /// Whose agents are all known as they are, and nobody else: a look records
  /// something exactly when some name is reported in two ways.
  lemma {:induction false} LookingAgain(j: Journal, space: int, agents: seq<Agent>, order: seq<string>)
    requires j.observedOnce && j.observedSpace == space && j.states.Keys == Instances(agents)
    requires AlikeByName(agents) ==> KnownAs(j.states, agents)
    requires forall id :: id in order <==> id in Noted(NotedSpace(j, space), agents, |agents|).states
    ensures Observe(j, space, agents, order).log == j.log <==> AlikeByName(agents)
  {
    hide Noted;
    hide RecordAll;
    hide Departures;
    assert NotedSpace(j, space) == j;
    var q := Noted(j, agents, |agents|);
    NotedGrows(j, agents, |agents|);
    RecordAllGrows(q, Departures(order, Instances(agents)));
    if AlikeByName(agents) {
      KnownRecordsNothing(j, agents, |agents|);
      hide Instances;
      NoDepartures(order, Instances(agents));
      NothingRecorded(q);
    } else if Observe(j, space, agents, order).log == j.log {
      NothingRecordedMeansKnown(j, agents, |agents|);
    }
  }

  /// Looking twice at the same Space and agents: the second look records nothing
  /// exactly when agents of one name are reported alike, so in particular when
  /// names do not repeat.
  lemma {:induction false} SecondLookRecordsNothing(j: Journal, space: int, agents: seq<Agent>, order: seq<string>,
                                                    order2: seq<string>)
    requires Sourced(j)
    requires forall id :: id in order <==> id in Noted(NotedSpace(j, space), agents, |agents|).states
    requires var q := Observe(j, space, agents, order);
             forall id :: id in order2 <==> id in Noted(NotedSpace(q, space), agents, |agents|).states
    ensures var q := Observe(j, space, agents, order);
            Observe(q, space, agents, order2).log == q.log <==> AlikeByName(agents)
  {
    var q := Observe(j, space, agents, order);
    ObserveSourced(j, space, agents, order);
    if AlikeByName(agents) { AlikeAreKnown(NotedSpace(j, space), agents); }
    RecordAllFrame(Noted(NotedSpace(j, space), agents, |agents|), Departures(order, Instances(agents)));
    NotedFrame(NotedSpace(j, space), agents, |agents|);
    hide Sourced;
    hide Noted;
    hide RecordAll;
    hide Departures;
    LookingAgain(q, space, agents, order2);
  }

  lemma {:induction false} RecordAllFrame(j: Journal, es: seq<Event>)
    ensures var q := RecordAll(j, es);
            q.observedOnce == j.observedOnce && q.observedSpace == j.observedSpace && q.states == j.states
  {
    if es != [] {
      RecordAllFrame(j, es[..|es| - 1]);
    }
  }

  lemma {:induction false} NotedFrame(j: Journal, agents: seq<Agent>, k: nat)
    requires k <= |agents|
    ensures var q := Noted(j, agents, k); q.observedOnce == j.observedOnce && q.observedSpace == j.observedSpace
  {
    hide RecordAll;
    if k > 0 {
      NotedFrame(j, agents, k - 1);
      RecordAllFrame(Noted(j, agents, k - 1), Difference(Noted(j, agents, k - 1).states, agents[k - 1]));
    }
  }

  // ---------------------------------------------------------------------------
  // The journal, updated in place

  class ControlEventJournal {
    var events: seq<Entry>
    var nextSequence: nat
    var observedActiveSpace: int
    var observedOnce: bool
    var agentStates: map<string, AgentState>
    /// Everything ever recorded.
    ghost var log: seq<Event>

    ghost function View(): Journal
      reads this
    {
      Journal(log, events, nextSequence, observedActiveSpace, observedOnce, agentStates)
    }

    constructor ()
      ensures View() == EMPTY_JOURNAL
      ensures JournalOk(View()) && Sourced(View())
    {
      events, nextSequence, observedActiveSpace, observedOnce, agentStates := [], 1, -1, false, map[];
      log := [];
      new;
      EmptySourced();
    }

    method Append(e: Event)
      requires |events| <= MAX_EVENTS
      modifies `events, `nextSequence, `log
      ensures View() == Record(old(View()), e) && |events| <= MAX_EVENTS
    {
      ghost var all := events + [Entry(nextSequence, e)];
      events := events + [Entry(nextSequence, e)];
      nextSequence := nextSequence + 1;
      log := log + [e];
      while |events| > MAX_EVENTS
        invariant nextSequence == old(nextSequence) + 1 && log == old(log) + [e]
        invariant |all| - 1 <= |events| <= |all| && events == all[|all| - |events|..]
        invariant if |all| > MAX_EVENTS then |events| >= MAX_EVENTS else events == all
        decreases |events|
      {
        assert events[1..] == all[|all| - |events| + 1..];
        events := events[1..];
      }
    }

    /// Records what changed since the last look.
    method ObserveAgents(space: int, agents: seq<Agent>) returns (ghost order: seq<string>)
      requires JournalOk(View())
      modifies this
      ensures View() == Observe(old(View()), space, agents, order)
      ensures JournalOk(View()) && (old(Sourced(View())) ==> Sourced(View()))
      ensures forall id :: id in order <==> id in Noted(NotedSpace(old(View()), space), agents, |agents|).states
    {
      hide Record;
      hide Sourced;
      hide JournalOk;
      NextIsCount(View());
      ghost var before := View();
      if observedOnce && space != observedActiveSpace {
        RecordKeeps(View(), SpaceFocused(space));
        Append(SpaceFocused(space));
      }
      observedActiveSpace := space;
      observedOnce := true;
      ghost var start := View();
      SpaceNotedOk(before, space);
      var live: set<string> := {};
      for k := 0 to |agents|
        invariant View() == Noted(start, agents, k) && JournalOk(View())
        invariant live == set i | 0 <= i < k :: agents[i].instance
      {
        live := live + {agents[k].instance};
        NoteAgent(agents[k]);
      }
      assert live == Instances(agents);
      order := DropDeparted(live);
      if Sourced(before) { ObserveSourced(before, space, agents, order); }
    }

    method NoteAgent(a: Agent)
      requires JournalOk(View())
      modifies this
      ensures View() == RecordAll(old(View()),
                                  Difference(old(View()).states,
                                             a)).(states := old(View()).states[a.instance := StateOf(a)])
      ensures JournalOk(View())
    {
      hide Record;
      hide RecordAll;
      hide JournalOk;
      NextIsCount(View());
      ghost var before := View();
      RecordAllKeeps(before, Difference(before.states, a));
      if a.instance !in agentStates {
        RecordOne(before, Added(a.instance, a.generation, a.lifecycle, a.status));
        Append(Added(a.instance, a.generation, a.lifecycle, a.status));
      } else if agentStates[a.instance] != StateOf(a) {
        RecordOne(before, Changed(a.instance, a.generation, a.lifecycle, a.status, a.focused));
        Append(Changed(a.instance, a.generation, a.lifecycle, a.status, a.focused));
      } else {
        NothingRecorded(before);
      }
      assert View() == RecordAll(before, Difference(before.states, a));
      KeptWith(View(), agentStates[a.instance := StateOf(a)]);
      agentStates := agentStates[a.instance := StateOf(a)];
    }

    /// One agent has gone.
    method Depart(id: string)
      requires JournalOk(View())
      modifies this
      ensures View() == Record(old(View()), Removed(id)).(states := old(agentStates) - {id})
      ensures JournalOk(View()) && agentStates == old(agentStates) - {id}
    {
      hide Record;
      NextIsCount(View());
      RecordKeeps(View(), Removed(id));
      Append(Removed(id));
      KeptWith(View(), agentStates - {id});
      RecordFrame(old(View()), Removed(id));
      agentStates := agentStates - {id};
    }

    /// Records and forgets the agents that are no longer there.
    method DropDeparted(live: set<string>) returns (ghost order: seq<string>)
      requires JournalOk(View())
      modifies this
      ensures View() == RecordAll(old(View()), Departures(order, live)).(
                          states := map id | id in old(agentStates) && id in live :: old(agentStates)[id])
      ensures JournalOk(View()) && forall id :: id in order <==> id in old(agentStates)
    {
      hide Record;
      hide RecordAll;
      hide JournalOk;
      ghost var before := View();
      order := [];
      NothingRecorded(before);
      var rest := agentStates.Keys;
      while rest != {}
        invariant JournalOk(View())
        invariant rest <= old(agentStates).Keys && forall id :: id in order <==> id in old(agentStates) && id !in rest
        invariant forall id :: id in agentStates <==> id in old(agentStates) && (id in rest || id in live)
        invariant forall id :: id in agentStates ==> agentStates[id] == old(agentStates)[id]
        invariant View() == RecordAll(before, Departures(order, live)).(states := agentStates)
        decreases |rest|
      {
        var id :| id in rest;
        ghost var so := order;
        order := order + [id];
        assert order[..|order| - 1] == so;
        if id !in live {
          RecordAllStep(before, Departures(so, live), Removed(id));
          assert Departures(order, live) == Departures(so, live) + [Removed(id)];
          RecordIgnoresStates(RecordAll(before, Departures(so, live)), Removed(id), agentStates);
          Depart(id);
        } else {
          assert Departures(order, live) == Departures(so, live);
        }
        rest := rest - {id};
      }
      assert agentStates == map id | id in old(agentStates) && id in live :: old(agentStates)[id];
    }

    method Read(cursor: nat, limit: nat) returns (r: Reading)
      ensures r == ReadAfter(View(), cursor, limit)
    {
      hide Selected;
      var oldest := if |events| == 0 then nextSequence else events[0].sequence;
      var expired := cursor != 0 && (cursor + 1) % CURSORS < oldest;
      var selected: seq<Entry> := [];
      if !expired {
        var i := 0;
        while i < |events| && !(limit > 0 && |selected| == limit)
          invariant i <= |events| && selected == Selected(events[..i], cursor, limit)
          invariant limit > 0 ==> |selected| <= limit
        {
          SelectedStep(events, cursor, limit, i);
          if events[i].sequence > cursor {
            selected := selected + [events[i]];
          }
          i := i + 1;
        }
        SelectedFull(events, cursor, limit, i);
      }
      var next := if |selected| > 0 then selected[|selected| - 1].sequence
                  else if cursor == 0 && |events| > 0 then events[|events| - 1].sequence
                  else cursor;
      return Reading(selected, next, expired);
    }
  }

  lemma SelectedStep(events: seq<Entry>, cursor: nat, limit: nat, i: nat)
    requires i < |events|
    ensures var front := Selected(events[..i], cursor, limit);
            Selected(events[..i + 1], cursor, limit) ==
            if events[i].sequence <= cursor || (limit > 0 && |front| == limit) then front else front + [events[i]]
  {
    assert events[..i + 1][..i] == events[..i];
  }

  lemma SpaceNotedOk(j: Journal, space: int)
    requires JournalOk(j)
    ensures JournalOk(NotedSpace(j, space))
  {
    RecordKeeps(j, SpaceFocused(space));
  }

  lemma RecordFrame(j: Journal, e: Event)
    ensures Record(j, e).states == j.states
  {}

  lemma RecordIgnoresStates(j: Journal, e: Event, states: map<string, AgentState>)
    ensures Record(j.(states := states), e) == Record(j, e).(states := states)
  {}

  lemma KeptWith(j: Journal, states: map<string, AgentState>)
    requires JournalOk(j)
    ensures JournalOk(j.(states := states))
  {}

  /// Once the limit is reached nothing more is selected.
  lemma {:induction false} SelectedFull(events: seq<Entry>, cursor: nat, limit: nat, i: nat)
    requires i <= |events| && (i == |events| || (limit > 0 && |Selected(events[..i], cursor, limit)| == limit))
    ensures Selected(events, cursor, limit) == Selected(events[..i], cursor, limit)
    decreases |events|
  {
    if i < |events| {
      var front := events[..|events| - 1];
      assert front[..i] == events[..i];
      SelectedFull(front, cursor, limit, i);
    } else {
      assert events[..i] == events;
    }
  }
}
