/** Membership messages and the events they fire (src/rib/rib_updater.cc, src/app/stats_manager.cc). */
module RibUpdaters {
  import opened AgentInfos
  import opened Ribs

  datatype BsEvent = BsAdd(bsId: nat) | BsRemove(bsId: nat)

  /** `success` says whether the hello's direction is the successful outcome. */
  datatype Event =
    | Hello(agentId: nat, bsId: nat, capabilities: seq<Capability>, success: bool)
    | Disconnect(agentId: nat)

  datatype Outcome =
    | Released | Pending | BsAdded
    | BsRemoved | PendingRemoved | UnknownAgent
    | OverlapException | DanglingLookup

  /** The RIB, the statistics manager's list of base stations, and all events fired so far. */
  datatype Sys = Sys(rib: RibState, bsList: set<nat>, log: seq<BsEvent>)

  const BS_ID_OFFSET := 10000

  // What an agent with an empty capability list is taken to provide, in the order of the source.
  const FULL_CAPABILITIES: seq<Capability> := [0, 1, 2, 3, 4, 5, 7, 6]

  /** The record that a hello message stands for, after its defaults are filled in. */
  function HelloAgent(e: Event): AgentInfo
    requires e.Hello?
  {
    AgentInfo(e.agentId,
              if e.bsId == 0 then BS_ID_OFFSET + e.agentId else e.bsId,
              Canonical(CapSet(if e.capabilities == [] then FULL_CAPABILITIES else e.capabilities)))
  }

  ghost predicate HelloStep(s: Sys, e: Event, o: Outcome, s': Sys)
    requires e.Hello?
  {
    var ai := HelloAgent(e);
    var mid := s.rib.(pendingAgents := s.rib.pendingAgents + {ai});
    if !e.success || ai.bsId in s.rib.enbConfigs || !Admissible(s.rib, ai) then
      o == Released && s' == s
    else if PromotionStep(mid, ai.bsId, Promoted, s'.rib) then
      o == BsAdded && s'.bsList == s.bsList + {ai.bsId} && s'.log == s.log + [BsAdd(ai.bsId)]
    else if PromotionStep(mid, ai.bsId, NotPromoted, s'.rib) then
      o == Pending && s'.bsList == s.bsList && s'.log == s.log
    else
      && o == OverlapException && PromotionStep(mid, ai.bsId, OverlapThrown, s'.rib)
      && s'.bsList == s.bsList && s'.log == s.log
  }

  ghost predicate DisconnectStep(s: Sys, id: nat, o: Outcome, s': Sys) {
    if id in s.rib.agentConfigs && s.rib.agentConfigs[id].bsId > 0 then
      var bsId := s.rib.agentConfigs[id].bsId;
      if LookupSafe(s.rib, id) then
        o == BsRemoved && s' == Sys(TornDown(s.rib, id), s.bsList - {bsId}, s.log + [BsRemove(bsId)])
      else
        o == DanglingLookup
    else
      && o == (if IsPending(s.rib, id) then PendingRemoved else UnknownAgent)
      && s'.bsList == s.bsList && s'.log == s.log
      && PendingDropped(s.rib, id, s'.rib)
  }

  ghost predicate Step(s: Sys, e: Event, o: Outcome, s': Sys) {
    match e
    case Hello(_, _, _, _) => HelloStep(s, e, o, s')
    case Disconnect(id) => DisconnectStep(s, id, o, s')
  }

  /** Keeps a list of base stations from the events alone. */
  class StatsManager {
    var bsList: set<nat>

    constructor ()
      ensures bsList == {}
    {
      bsList := {};
    }

    method BsAddCallback(bsId: nat)
      modifies this
      ensures bsList == old(bsList) + {bsId}
    {
      bsList := bsList + {bsId};
    }

    method BsRemoveCallback(bsId: nat)
      modifies this
      ensures bsList == old(bsList) - {bsId}
    {
      if bsId !in bsList {
        return;
      }
      bsList := bsList - {bsId};
    }
  }

  class RibUpdater {
    const rib: Rib
    const stats: StatsManager
    var log: seq<BsEvent>

    ghost function State(): Sys
      reads this, rib, stats
    {
      Sys(rib.State(), stats.bsList, log)
    }

    constructor ()
      ensures fresh(rib) && fresh(stats)
      ensures State() == Init()
    {
      rib := new Rib();
      stats := new StatsManager();
      log := [];
    }

    method HandleHello(agentId: nat, bsId: nat, capabilities: seq<Capability>, success: bool) returns (o: Outcome)
      modifies this`log, rib, stats
      ensures Step(old(State()), Hello(agentId, bsId, capabilities, success), o, State())
    {
      if !success {
        return Released;
      }
      var id := if bsId == 0 then BS_ID_OFFSET + agentId else bsId;
      var protoCaps := capabilities;
      if protoCaps == [] {
        protoCaps := FULL_CAPABILITIES;
      }
      var caps := new AgentCapabilities(protoCaps);
      var agent := AgentInfo(agentId, id, caps.caps);
      assert agent == HelloAgent(Hello(agentId, bsId, capabilities, success));
      if id in rib.enbConfigs {
        return Released;
      }
      var added := rib.AddPendingAgent(agent);
      if !added {
        return Released;
      }
      var promotion := rib.NewEnbConfigEntry(id);
      match promotion {
        case Promoted =>
          stats.BsAddCallback(id);
          log := log + [BsAdd(id)];
          o := BsAdded;
        case NotPromoted =>
          o := Pending;
        case OverlapThrown =>
          o := OverlapException;
      }
    }

    method HandleDisconnect(agentId: nat) returns (o: Outcome)
      requires LookupSafe(rib.State(), agentId)
      modifies this`log, rib, stats
      ensures Step(old(State()), Disconnect(agentId), o, State())
    {
      var bsId := if agentId in rib.agentConfigs then rib.agentConfigs[agentId].bsId else 0;
      if bsId > 0 {
        var removed := rib.RemoveEnbConfigEntry(agentId);
        if removed {
          stats.BsRemoveCallback(bsId);
          log := log + [BsRemove(bsId)];
        }
        o := BsRemoved;
      } else if exists a | a in rib.pendingAgents :: a.agentId == agentId {
        rib.RemovePendingAgent(agentId);
        o := PendingRemoved;
      } else {
        o := UnknownAgent;
      }
    }
  }

  function Init(): Sys {
    Sys(RibState(map[], map[], {}), {}, [])
  }
}
