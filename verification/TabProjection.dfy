/** One remote tab projected on a local one: what it does to the panes, and which
    focus calls it makes in the tab that is in front and in any other. */
module TabProjection {
  import opened Identifiers
  import opened SplitTrees
  import opened PaneModel
  import opened PaneInvariants
  import opened PaneReconcile
  import opened PaneSound
  import opened TabModel
  import opened PaneFocus
  import opened PaneProjection
  import T = TopologyModel

  /// What a remote tab brings: nothing that can be converted, names alone when its
  /// layout is the one applied last, or names and then a layout.
  datatype Arrival =
    | Unread
    | Known(names: seq<(LeafId, string)>)
    | Comes(names: seq<(LeafId, string)>, layout: Projection)

  function NamesSet(p: Panes, names: seq<(LeafId, string)>): Panes {
    if names == [] then p
    else
      var (id, name) := names[|names| - 1];
      SetName(NamesSet(p, names[..|names| - 1]), id, name)
  }

  function PanesAfter(p: Panes, a: Arrival): Panes {
    match a
    case Unread => p
    case Known(names) => NamesSet(p, names)
    case Comes(_, x) => x.after
  }

  /// The outcome that the application of a snapshot goes by.
  function OutcomeOf(p: Panes, a: Arrival): T.Outcome {
    match a
    case Unread => T.Rejected
    case Known(names) => T.Alike(NamesSet(p, names))
    case Comes(_, x) => T.Reconciled(x.after, x.ok)
  }

  /// The layout is applied to the panes as named.
  ghost predicate Arrives(p: Panes, deps: Deps, a: Arrival) {
    a.Comes? ==> Projected(NamesSet(p, a.names), deps, a.layout)
  }

  function ArrivalHosts(a: Arrival): set<HostId> {
    if a.Comes? then ProjectedHosts(a.layout) else {}
  }

  ghost function ArrivalCalls(p: Panes, a: Arrival, holders: set<HostId>): set<HostId> {
    if a.Comes? then ProjectCalls(NamesSet(p, a.names), a.layout, holders) else holders
  }

  ghost predicate FrontAstray(p: Panes, deps: Deps, a: Arrival) {
    a.Comes? && LosesFocus(NamesSet(p, a.names), deps, a.layout)
  }

  ghost predicate BehindAstray(p: Panes, a: Arrival) {
    a.Comes? && TakesFocus(NamesSet(p, a.names), a.layout)
  }

  lemma {:induction false} NamesOnly(p: Panes, names: seq<(LeafId, string)>)
    ensures NamesSet(p, names) == p.(names := NamesSet(p, names).names)
  {
    if names != [] {
      NamesOnly(p, names[..|names| - 1]);
    }
  }

  lemma NamesSetOwn(p: Panes, names: seq<(LeafId, string)>)
    requires Own(p)
    ensures Own(NamesSet(p, names)) && NamesSet(p, names).hosts == p.hosts
            && FocusedHost(NamesSet(p, names)) == FocusedHost(p)
  {
    NamesOnly(p, names);
    hide NamesSet;
    hide Injective;
    hide Sound;
    RecordsSound(p, NamesSet(p, names));
  }

  /// A projected tab has the panes of the arrival, whose outcome the application of
  /// the snapshot is given; it succeeds when the layout is in place. From the first
  /// layout that is accepted on the tab counts as initialized.
  lemma ProjectedTabLaw(tab: Tab, remote: T.RemoteTab, a: Arrival)
    ensures var t := T.ProjectOn(tab, remote, OutcomeOf(tab.panes, a));
            t.panes == PanesAfter(tab.panes, a) && t.id == tab.id && t.name == remote.name
              && t.nameUserSet == remote.nameUserSet
              && (t.initialized <==> tab.initialized || (a.Comes? && a.layout.ok))
    ensures T.Projects(OutcomeOf(tab.panes, a)) <==> a.Known? || (a.Comes? && a.layout.ok)
  {}

  lemma ArrivalKeepsOwn(p: Panes, deps: Deps, a: Arrival)
    requires Own(p) && Arrives(p, deps, a) && ArrivalHosts(a) !! p.hosts.Values
    ensures Own(PanesAfter(p, a)) && PanesAfter(p, a).hosts.Values <= p.hosts.Values + ArrivalHosts(a)
  {
    hide Own;
    hide Projected;
    hide NamesSet;
    hide ProjectedHosts;
    if !a.Unread? {
      NamesSetOwn(p, a.names);
      if a.Comes? {
        ProjectionKeepsOwn(NamesSet(p, a.names), deps, a.layout);
      }
    }
  }

  /// In the tab in front, whose focused host is the only holder, it is so afterwards
  /// exactly when the layout does not lose the focus.
  lemma ArrivalInFront(p: Panes, deps: Deps, a: Arrival, holders: set<HostId>)
    requires Own(p) && Arrives(p, deps, a) && holders == FocusedHost(p) && ArrivalHosts(a) !! p.hosts.Values
    ensures ArrivalCalls(p, a, holders) == FocusedHost(PanesAfter(p, a)) <==> !FrontAstray(p, deps, a)
  {
    hide Own;
    hide Projected;
    hide NamesSet;
    hide ProjectedHosts;
    hide LosesFocus;
    hide ProjectCalls;
    FocusedHostLaw(p);
    hide FocusedHost;
    assert holders * p.hosts.Values == holders && holders - p.hosts.Values == {};
    if !a.Unread? {
      NamesSetOwn(p, a.names);
      if a.Comes? {
        ProjectionHandsOver(NamesSet(p, a.names), deps, a.layout, holders);
      }
    }
  }

  /// In any other tab the holders stay the same exactly when its focus does not move.
  lemma ArrivalBehind(p: Panes, deps: Deps, a: Arrival, holders: set<HostId>)
    requires Own(p) && Arrives(p, deps, a) && holders !! p.hosts.Values && ArrivalHosts(a) !! holders + p.hosts.Values
    ensures ArrivalCalls(p, a, holders) == holders <==> !BehindAstray(p, a)
  {
    hide Own;
    hide Projected;
    hide NamesSet;
    hide ProjectedHosts;
    hide TakesFocus;
    hide ProjectCalls;
    if a.Comes? {
      NamesSetOwn(p, a.names);
      ProjectionAside(NamesSet(p, a.names), deps, a.layout, holders);
    }
  }
}
