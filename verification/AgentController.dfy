/** The agent controller's server projection, updated in place. */
module AgentControllers {
  import opened Identifiers
  import opened TabModel
  import opened SpaceModel
  import opened SpaceControllers
  import opened AgentFence

  class AgentController {
    var serverAgents: seq<Agent>
    var minimumGenerations: map<string, nat>
    var acknowledged: map<string, nat>
    var authoritative: bool

    function View(): Projection
      reads this
    {
      Projection(serverAgents, minimumGenerations, acknowledged, authoritative)
    }

    constructor ()
      ensures View() == NO_AGENTS
    {
      serverAgents, minimumGenerations, acknowledged, authoritative := [], map[], map[], false;
    }

    method FindAgent(instance: string) returns (r: Option<nat>)
      ensures r == FirstAgent(serverAgents, instance)
    {
      for i := 0 to |serverAgents|
        invariant forall k :: 0 <= k < i ==> serverAgents[k].instance != instance
      {
        if serverAgents[i].instance == instance {
          return Some(i);
        }
      }
      return None;
    }

    /// Takes a snapshot over, except where a fence holds an agent back.
    method SetServerAgents(agents: seq<Agent>)
      modifies this
      ensures View() == SetAgents(old(View()), agents)
      ensures old(FencesOk(View())) ==> FencesOk(View())
    {
      hide FirstAgent;
      hide FencesOk;
      ghost var before := View();
      if FencesOk(before) { SetAgentsKeeps(before, agents); }
      var sifted: seq<Agent> := [];
      for k := 0 to |agents|
        invariant serverAgents == before.agents && acknowledged == before.acks
        invariant (sifted, minimumGenerations) == Sifted(before.agents, before.fences, agents, k)
      {
        var agent := agents[k];
        if agent.instance in minimumGenerations {
          if agent.generation >= minimumGenerations[agent.instance] {
            minimumGenerations := minimumGenerations - {agent.instance};
          } else {
            var current := FindAgent(agent.instance);
            if current.Some? {
              agent := serverAgents[current.value];
            }
          }
        }
        sifted := sifted + [agent];
      }
      serverAgents := sifted;
      authoritative := true;
      var live := CollectInstances();
      minimumGenerations := map id | id in minimumGenerations && id in live :: minimumGenerations[id];
      acknowledged := map id | id in acknowledged && id in live :: acknowledged[id];
    }

    method CollectInstances() returns (live: set<string>)
      ensures live == Instances(serverAgents)
    {
      live := {};
      for i := 0 to |serverAgents|
        invariant live == set k | 0 <= k < i :: serverAgents[k].instance
      {
        live := live + {serverAgents[i].instance};
      }
    }

    method ClearServerAgents()
      modifies this
      ensures View() == NO_AGENTS
    {
      serverAgents, minimumGenerations, acknowledged, authoritative := [], map[], map[], false;
    }

    /// Records an accepted restart and fences off snapshots from before it.
    method NoteServerRestart(instance: string, generation: nat, now: int) returns (ok: bool)
      modifies `serverAgents, `minimumGenerations
      ensures (View(), ok) == NoteRestart(old(View()), instance, generation, now)
      ensures old(FencesOk(View())) ==> FencesOk(View())
    {
      hide FirstAgent;
      hide FencesOk;
      if FencesOk(View()) { NoteRestartKeeps(View(), instance, generation, now); }
      if !authoritative || generation == 0 {
        return false;
      }
      var found := FindAgent(instance);
      if found.None? {
        return false;
      }
      var i := found.value;
      serverAgents := serverAgents[i := Restarted(serverAgents[i], generation, now)];
      minimumGenerations := minimumGenerations[instance := generation];
      return true;
    }

    static method IsFocusedIn(spaces: SpaceController, a: Agent) returns (focused: bool)
      requires spaces.Valid()
      ensures focused == IsFocused(spaces.model, a)
    {
      hide IndexOfSpace;
      hide IndexOfTab;
      var space := spaces.FindSpace(a.space);
      if space.None? {
        return false;
      }
      var tabs := spaces.spaces[space.value].tabs;
      var tab := tabs.FindTab(a.tab);
      if tab.None? {
        return false;
      }
      return spaces.activeSpaceId == a.space && tabs.activeTabId == a.tab
        && tabs.tabs[tab.value].panes.tree.focused == a.leaf;
    }

    /// The agents as shown; showing a focused one acknowledges it.
    method ComputeServerAgents(spaces: SpaceController) returns (shown: seq<Agent>)
      requires spaces.Valid()
      modifies `acknowledged
      ensures spaces.Valid() && (View(), shown) == Show(old(View()), spaces.model)
      ensures old(FencesOk(View())) ==> FencesOk(View())
    {
      hide IsFocused;
      hide FencesOk;
      if FencesOk(View()) { ShowKeeps(View(), spaces.model); }
      shown := [];
      for k := 0 to |serverAgents|
        invariant spaces.Valid()
        invariant (shown, acknowledged) == Shown(spaces.model, serverAgents, old(acknowledged), k)
      {
        var agent := serverAgents[k];
        var focused := IsFocusedIn(spaces, agent);
        agent := agent.(focused := focused);
        if agent.focused && agent.attention {
          acknowledged := acknowledged[agent.instance := agent.observation];
        }
        if agent.instance in acknowledged && acknowledged[agent.instance] >= agent.observation {
          agent := agent.(attention := false);
        }
        shown := shown + [agent];
      }
    }

    static method CanReach(spaces: SpaceController, a: Agent) returns (reached: bool)
      requires spaces.Valid()
      ensures reached == Reaches(spaces.model, a)
    {
      hide IndexOfSpace;
      hide IndexOfTab;
      var space := spaces.FindSpace(a.space);
      if space.None? {
        return false;
      }
      var entered := spaces.activeSpaceId == a.space;
      if !entered {
        entered := spaces.HasActiveTab(space.value);
      }
      var tab := spaces.spaces[space.value].tabs.FindTab(a.tab);
      return entered && tab.Some?;
    }

    /// The acknowledgement made when the user navigates to an agent.
    method AcknowledgeNavigation(spaces: SpaceController, instance: string)
      requires spaces.Valid()
      modifies `acknowledged
      ensures View() == AcknowledgeFocus(old(View()), spaces.model, instance)
    {
      hide FirstAgent;
      hide Reaches;
      var found := FindAgent(instance);
      if found.Some? {
        var agent := serverAgents[found.value];
        var reached := CanReach(spaces, agent);
        if reached && agent.attention {
          acknowledged := acknowledged[agent.instance := agent.observation];
        }
      }
    }
  }
}
