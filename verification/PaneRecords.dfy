/** What is noted for a pane beside its host: its name, its agent and the session to
    resume. What sets a note, what takes it away, and what leaves it alone. */
module PaneRecords {
  import opened Identifiers
  import opened SplitTrees
  import opened PaneModel
  import opened PaneInvariants
  import opened PaneApply
  import opened PaneFailure
  import opened PaneRuns

  /// The leaf's notes are the same in both states.
  ghost predicate SameNotes(p: Panes, q: Panes, id: LeafId) {
    && Lookup(q.names, id) == Lookup(p.names, id)
    && Lookup(q.agents, id) == Lookup(p.agents, id)
    && Lookup(q.policies, id) == Lookup(p.policies, id)
    && Lookup(q.sessions, id) == Lookup(p.sessions, id)
  }

  // ---------------------------------------------------------------------------
  // Setting and clearing

  /// A pane has the name given to it, and none after an empty one; no other note changes.
  lemma NamedAsGiven(p: Panes, id: LeafId, name: string)
    ensures var q := SetName(p, id, name);
            && Text(q.names, id) == name && (id in q.names <==> name != "")
            && q == p.(names := q.names) && forall x :: x != id ==> SameNotes(p, q, x)
  {}

  /// An agent that is complete is recorded for a hosted pane, with its policy; only an
  /// agent that was merely discovered costs the pane its session. Nothing else changes.
  lemma AgentAsGiven(p: Panes, id: LeafId, agent: AgentIdentity, policy: RestorePolicy)
    ensures var q := SetAgent(p, id, agent, policy);
            var complete := agent.kind != "" && agent.displayName != "" && agent.instanceId != "";
            && (!(complete && id in p.hosts) ==> q == p)
            && (complete && id in p.hosts ==>
                  && Lookup(q.agents, id) == Some(agent) && Lookup(q.policies, id) == Some(policy)
                  && Lookup(q.sessions, id) == (if agent.origin == Discovered then None else Lookup(p.sessions, id)))
            && q == p.(agents := q.agents, policies := q.policies, sessions := q.sessions)
  {}

  lemma AgentElsewhere(p: Panes, id: LeafId, agent: AgentIdentity, policy: RestorePolicy, other: LeafId)
    requires other != id
    ensures SameNotes(p, SetAgent(p, id, agent, policy), other)
  {}

  lemma ClearElsewhere(p: Panes, id: LeafId, other: LeafId)
    requires other != id
    ensures SameNotes(p, ClearAgent(p, id), other)
  {}

  /// Clearing takes agent, policy and session of the pane, and nothing else.
  lemma ClearForgets(p: Panes, id: LeafId)
    ensures var q := ClearAgent(p, id);
            && id !in q.agents && id !in q.policies && id !in q.sessions
            && q == p.(agents := q.agents, policies := q.policies, sessions := q.sessions)
  {}

  /// It undoes recording an agent for a pane that had none.
  lemma ClearUndoesAgent(p: Panes, id: LeafId, agent: AgentIdentity, policy: RestorePolicy)
    requires id !in p.agents && id !in p.policies && id !in p.sessions
    ensures ClearAgent(SetAgent(p, id, agent, policy), id) == p
  {
    var q := SetAgent(p, id, agent, policy);
    var r := ClearAgent(q, id);
    AgentAsGiven(p, id, agent, policy);
    ClearForgets(q, id);
    forall x | x != id ensures SameNotes(p, r, x) {
      AgentElsewhere(p, id, agent, policy, x);
      ClearElsewhere(q, id, x);
    }
    hide SetAgent;
    hide ClearAgent;
    SameMap(p, r, id);
  }

  lemma SameMap(p: Panes, q: Panes, id: LeafId)
    requires q == p.(agents := q.agents, policies := q.policies, sessions := q.sessions)
    requires id !in p.agents && id !in p.policies && id !in p.sessions
    requires id !in q.agents && id !in q.policies && id !in q.sessions
    requires forall x :: x != id ==> SameNotes(p, q, x)
    ensures q == p
  {
    forall x ensures Lookup(q.agents, x) == Lookup(p.agents, x) && Lookup(q.policies, x) == Lookup(p.policies, x)
                  && Lookup(q.sessions, x) == Lookup(p.sessions, x) {
      assert x != id ==> SameNotes(p, q, x);
    }
    SameLookups(p.agents, q.agents);
    SameLookups(p.policies, q.policies);
    SameLookups(p.sessions, q.sessions);
    hide SameNotes;
  }

  lemma SameLookups<V>(m: map<LeafId, V>, n: map<LeafId, V>)
    requires forall x :: Lookup(n, x) == Lookup(m, x)
    ensures n == m
  {
    forall x ensures x in n <==> x in m { assert Lookup(n, x) == Lookup(m, x); }
    forall x | x in n ensures n[x] == m[x] { assert Lookup(n, x) == Lookup(m, x); }
  }

  /// A session is taken over exactly when it is valid, the pane has a managed agent of the
  /// same kind, and no session as new is recorded; no other note changes.
  lemma SessionAsGiven(p: Panes, id: LeafId, session: SessionRef, valid: bool)
    ensures var (q, ok) := SetSession(p, id, session, valid);
            && (ok <==>
                  && valid && id in p.agents && p.agents[id].origin == Managed && p.agents[id].kind == session.agentKind
                  && (id in p.sessions ==> p.sessions[id].sequence < session.sequence))
            && (ok ==> Lookup(q.sessions, id) == Some(session)) && (!ok ==> q == p)
            && q == p.(sessions := q.sessions) && forall x :: x != id ==> SameNotes(p, q, x)
  {}

  // ---------------------------------------------------------------------------
  // Operations on the layout

  /// The operation takes the leaf away with its notes.
  ghost predicate TakesAway(p: Panes, op: Op, id: LeafId) {
    op == DoClose(id) || (op.DoHidePreview? && id == p.previewLeaf)
  }

  ghost predicate AllNotes(p: Panes, q: Panes) {
    q.names == p.names && q.agents == p.agents && q.policies == p.policies && q.sessions == p.sessions
  }

  lemma CreateNotes(p: Panes, deps: Deps, id: LeafId, launch: Launch, primary: bool, preserve: bool, m: HostMaker)
    ensures AllNotes(p, CreateHost(p, deps, id, launch, primary, preserve, m).0)
  {
    CreateOnlyTables(p, deps, id, launch, primary, preserve, m);
    hide CreateHost;
    hide StartsAs;
  }

  lemma FocusNotes(p: Panes, id: LeafId)
    ensures AllNotes(p, UpdateFocus(p, id))
  {
    hide SetFocused;
    if p.tree.focused == id {
      assert UpdateFocus(p, id) == p;
    } else {
      assert UpdateFocus(p, id).names == p.names;
      assert UpdateFocus(p, id).agents == p.agents;
      assert UpdateFocus(p, id).policies == p.policies;
      assert UpdateFocus(p, id).sessions == p.sessions;
    }
  }

  lemma SwapNotes(p: Panes, deps: Deps)
    ensures AllNotes(p, SwapWithNext(p, deps).0)
  {
    hide SwapLeaves;
    hide NextLeafAfter;
  }

  lemma ZoomNotes(p: Panes)
    ensures AllNotes(p, ToggleZoom(p))
  {
    hide TreeLeaves;
    if ToggleZoom(p) != p {
      assert ToggleZoom(p).names == p.names;
      assert ToggleZoom(p).agents == p.agents;
      assert ToggleZoom(p).policies == p.policies;
      assert ToggleZoom(p).sessions == p.sessions;
    }
  }

  lemma RestartNotes(p: Panes, deps: Deps, id: LeafId, m: HostMaker)
    ensures AllNotes(p, RestartPane(p, deps, id, m).0)
  {
    if id in p.launches { CreateNotes(p.(hosts := p.hosts - {id}), deps, id, p.launches[id], false, true, m); }
    hide CreateHost;
  }

  lemma SplitNotes(p: Panes, deps: Deps, dir: Direction, launch: Launch, m: HostMaker)
    ensures AllNotes(p, SplitPane(p, deps, dir, launch, m).0)
  {
    hide CreateHost;
    hide SplitLeaf;
    hide CloseLeaf;
    hide UpdateFocus;
    hide Completed;
    var (tree, leaf) := SplitLeaf(p.tree, p.tree.focused, dir);
    CreateNotes(p.(tree := tree), deps, leaf, Completed(launch, deps), false, false, m);
    FocusNotes(CreateHost(p.(tree := tree), deps, leaf, Completed(launch, deps), false, false, m).0, leaf);
  }

  lemma SplitOffNotes(p: Panes, deps: Deps, owner: LeafId, ratio: real, path: string, m: HostMaker)
    ensures AllNotes(p, SplitOffPreview(p, deps, owner, ratio, path, m).0)
  {
    hide SplitPane;
    hide SetParentRatio;
    hide SetFocused;
    hide UpdateFocus;
    hide PreviewLaunch;
    var q := p.(tree := SetFocused(p.tree, owner));
    var launch := PreviewLaunch(path, if owner in p.paneIds then p.paneIds[owner] else "");
    var (q', leaf) := SplitPane(q, deps, Horizontal, launch, m);
    SplitNotes(q, deps, Horizontal, launch, m);
    FocusNotes(q', if p.tree.focused == INVALID_LEAF then owner else p.tree.focused);
    FocusNotes(q'.(tree := SetParentRatio(q'.tree, leaf, ratio), previewLeaf := leaf, previewOwner := owner), owner);
  }

  lemma ShowNotes(p: Panes, deps: Deps, owner: LeafId, ratio: real, path: string, m: HostMaker)
    ensures AllNotes(p, ShowPreview(p, deps, owner, ratio, path, m).0)
  {
    hide SplitOffPreview;
    CheckedNotes(p);
    SplitOffNotes(PreviewChecked(p), deps, owner, ratio, path, m);
    hide PreviewChecked;
  }

  lemma CheckedNotes(p: Panes)
    ensures AllNotes(p, PreviewChecked(p))
  {
    if p.previewLeaf != INVALID_LEAF {
      assert PreviewChecked(p).names == p.names;
      assert PreviewChecked(p).agents == p.agents;
      assert PreviewChecked(p).policies == p.policies;
      assert PreviewChecked(p).sessions == p.sessions;
    }
  }

  lemma CloseNotes(p: Panes, deps: Deps, closed: LeafId, id: LeafId)
    requires id != closed
    ensures SameNotes(p, ClosePane(p, deps, closed).0, id)
  {
    hide CloseLeaf;
  }

  lemma HideNotes(p: Panes, deps: Deps, id: LeafId)
    requires id != p.previewLeaf
    ensures SameNotes(p, HidePreview(p, deps), id)
  {
    hide ClosePane;
    hide UpdateFocus;
    var q := p.(previewLeaf := INVALID_LEAF, previewOwner := INVALID_LEAF);
    CloseNotes(q, deps, p.previewLeaf, id);
    FocusNotes(ClosePane(q, deps, p.previewLeaf).0, p.previewOwner);
  }

  lemma AllSame(p: Panes, q: Panes, id: LeafId)
    requires AllNotes(p, q)
    ensures SameNotes(p, q, id)
  {}

  /// Whatever is done to the layout, also where hosts fail, the notes of every leaf stay
  /// that is not closed by it.
  lemma LayoutKeepsNotes(deps: Deps, p: Panes, op: Op, q: Panes, id: LeafId)
    requires Step(deps, p, op, q) && (IsLayout(op) || op.DoRestart?) && !TakesAway(p, op, id)
    ensures SameNotes(p, q, id)
  {
    hide SplitPane;
    hide ShowPreview;
    hide HidePreview;
    hide ClosePane;
    hide RestartPane;
    hide SwapWithNext;
    hide ToggleZoom;
    hide UpdateFocus;
    hide AllNotes;
    hide SameNotes;
    match op
    case DoSplit(dir, launch, m) => SplitNotes(p, deps, dir, launch, m); AllSame(p, q, id);
    case DoClose(other) => CloseNotes(p, deps, other, id);
    case DoRestart(other, m) => RestartNotes(p, deps, other, m); AllSame(p, q, id);
    case DoSwap => SwapNotes(p, deps); AllSame(p, q, id);
    case DoToggleZoom => ZoomNotes(p); AllSame(p, q, id);
    case DoFocus(other) => FocusNotes(p, other); AllSame(p, q, id);
    case DoShowPreview(owner, ratio, path, m) => ShowNotes(p, deps, owner, ratio, path, m); AllSame(p, q, id);
    case DoHidePreview => HideNotes(p, deps, id);
  }

  // ---------------------------------------------------------------------------
  // Over runs

  /// In one local operation a pane's session stays, is replaced by a newer one, or is gone.
  lemma SessionStep(deps: Deps, p: Panes, op: Op, q: Panes, id: LeafId)
    requires Step(deps, p, op, q) && !op.DoReconcile? && id in p.sessions && id in q.sessions
    ensures q.sessions[id] == p.sessions[id] || p.sessions[id].sequence < q.sessions[id].sequence
  {
    if IsLayout(op) || op.DoRestart? {
      if TakesAway(p, op, id) { TakenAway(deps, p, op, q, id); } else { LayoutKeepsNotes(deps, p, op, q, id); }
      hide Step;
    } else {
      hide SetName;
      hide SetAgent;
      hide SetSession;
      match op
      case DoSetName(other, name) => NamedAsGiven(p, other, name);
      case DoSetAgent(other, agent, policy) =>
        AgentAsGiven(p, other, agent, policy);
        if other != id { AgentElsewhere(p, other, agent, policy, id); }
      case DoClearAgent(other) => assert other != id;
      case DoSetSession(other, session, valid) =>
        SessionAsGiven(p, other, session, valid);
        assert other != id ==> SameNotes(p, q, id);
    }
  }

  /// Closing a pane keeps its session only if the close is refused.
  lemma TakenAway(deps: Deps, p: Panes, op: Op, q: Panes, id: LeafId)
    requires Step(deps, p, op, q) && TakesAway(p, op, id) && id in p.sessions && id in q.sessions
    ensures q.sessions[id] == p.sessions[id]
  {
    hide ClosePane;
    hide UpdateFocus;
    if op.DoHidePreview? {
      var r := p.(previewLeaf := INVALID_LEAF, previewOwner := INVALID_LEAF);
      ClosedSessions(r, deps, id);
      FocusNotes(ClosePane(r, deps, id).0, p.previewOwner);
    } else {
      ClosedSessions(p, deps, id);
    }
  }

  lemma ClosedSessions(p: Panes, deps: Deps, id: LeafId)
    ensures var q := ClosePane(p, deps, id).0; q.sessions == p.sessions || id !in q.sessions
  {
    hide CloseLeaf;
  }

  /// As long as a local pane has a session to resume, only newer ones replace it.
  lemma {:induction false} SessionsNeverGoBack(deps: Deps, states: seq<Panes>, ops: seq<Op>, i: nat, j: nat, id: LeafId)
    requires Run(deps, states, ops) && i <= j <= |ops|
    requires forall k :: 0 <= k < |ops| ==> !ops[k].DoReconcile?
    requires forall k :: i <= k <= j ==> id in states[k].sessions
    ensures states[j].sessions[id] == states[i].sessions[id]
              || states[i].sessions[id].sequence < states[j].sessions[id].sequence
    decreases j - i
  {
    hide Step;
    if i < j {
      SessionsNeverGoBack(deps, states, ops, i, j - 1, id);
      SessionStep(deps, states[j - 1], ops[j - 1], states[j], id);
    }
  }
}
