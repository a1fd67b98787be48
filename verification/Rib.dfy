/** The controller's tables of base stations and agents (src/rib/rib.h, src/rib/rib.cc). */
module Ribs {
  import opened AgentInfos

  /** The three containers; of a live base station only its member agents are kept here. */
  datatype RibState = RibState(
    enbConfigs: map<nat, set<AgentInfo>>,
    agentConfigs: map<nat, AgentInfo>,
    pendingAgents: set<AgentInfo>)

  datatype Promotion = Promoted | NotPromoted | OverlapThrown

  function Ids(agents: set<AgentInfo>): set<nat> {
    set a | a in agents :: a.agentId
  }

  ghost predicate Disjoint(a: AgentInfo, b: AgentInfo) {
    CapSet(a.capabilities) !! CapSet(b.capabilities)
  }

  ghost predicate PairwiseDisjoint(agents: set<AgentInfo>) {
    forall a, b | a in agents && b in agents && a != b :: Disjoint(a, b)
  }

  ghost function UnionCaps(agents: set<AgentInfo>): set<Capability> {
    set a, c | a in agents && c in CapSet(a.capabilities) :: c
  }

  /** All eight base capabilities are provided. */
  ghost predicate Covers(caps: set<Capability>) {
    forall c: Capability | c < BASE_CAPABILITIES :: c in caps
  }

  function Waiting(s: RibState, bsId: nat): set<AgentInfo> {
    set a | a in s.pendingAgents && a.bsId == bsId
  }

  predicate IsPending(s: RibState, agentId: nat) {
    exists a | a in s.pendingAgents :: a.agentId == agentId
  }

  /** What an agent must satisfy to be put among the pending ones. */
  ghost predicate Admissible(s: RibState, ai: AgentInfo) {
    && ai.bsId != 0
    && !IsPending(s, ai.agentId)
    && |ai.capabilities| >= 1
    && forall p | p in Waiting(s, ai.bsId) :: Disjoint(p, ai)
  }

  /** `m'` is `m` with every agent emplaced: a key that is taken keeps its value. */
  ghost predicate Emplaced(m: map<nat, AgentInfo>, agents: set<AgentInfo>, m': map<nat, AgentInfo>) {
    && m'.Keys == m.Keys + Ids(agents)
    && (forall id | id in m :: m'[id] == m[id])
    && forall id | id in m' && id !in m :: m'[id] in agents && m'[id].agentId == id
  }

  /** The outcome and effect of trying to promote the agents that wait for `bsId`. */
  ghost predicate PromotionStep(s: RibState, bsId: nat, o: Promotion, s': RibState) {
    var waiting := Waiting(s, bsId);
    if bsId in s.enbConfigs then
      o == NotPromoted && s' == s
    else if !PairwiseDisjoint(waiting) then
      o == OverlapThrown && s' == s
    else if !Covers(UnionCaps(waiting)) then
      o == NotPromoted && s' == s
    else
      && o == Promoted
      && s'.enbConfigs == s.enbConfigs[bsId := waiting]
      && s'.pendingAgents == s.pendingAgents - waiting
      && Emplaced(s.agentConfigs, waiting, s'.agentConfigs)
  }

  /** The unchecked lookup of the agent's base station finds an entry. */
  predicate LookupSafe(s: RibState, agentId: nat) {
    agentId in s.agentConfigs ==> s.agentConfigs[agentId].bsId in s.enbConfigs
  }

  /** Tearing down the base station of a known agent; the other members become pending again. */
  function TornDown(s: RibState, agentId: nat): RibState
    requires agentId in s.agentConfigs && LookupSafe(s, agentId)
  {
    var gone := s.agentConfigs[agentId];
    var all := s.enbConfigs[gone.bsId];
    RibState(s.enbConfigs - {gone.bsId}, s.agentConfigs - Ids(all), s.pendingAgents + (all - {gone}))
  }

  /** Dropping one pending agent with this id, whichever is found first. */
  ghost predicate PendingDropped(s: RibState, agentId: nat, s': RibState) {
    if IsPending(s, agentId) then
      exists a | a in s.pendingAgents :: a.agentId == agentId && s' == s.(pendingAgents := s.pendingAgents - {a})
    else
      s' == s
  }

  class Rib {
    var enbConfigs: map<nat, set<AgentInfo>>
    var agentConfigs: map<nat, AgentInfo>
    var pendingAgents: set<AgentInfo>

    ghost function State(): RibState
      reads this
    {
      RibState(enbConfigs, agentConfigs, pendingAgents)
    }

    constructor ()
      ensures State() == RibState(map[], map[], {})
    {
      enbConfigs, agentConfigs, pendingAgents := map[], map[], {};
    }

    method AddPendingAgent(ai: AgentInfo) returns (ok: bool)
      modifies this`pendingAgents
      ensures ok <==> Admissible(old(State()), ai)
      ensures pendingAgents == old(pendingAgents) + (if ok then {ai} else {})
    {
      if ai.bsId == 0 || (exists a | a in pendingAgents :: a.agentId == ai.agentId) || |ai.capabilities| < 1 {
        return false;
      }
      var rest := pendingAgents;
      while rest != {}
        invariant rest <= pendingAgents == old(pendingAgents)
        invariant forall p | p in Waiting(State(), ai.bsId) && p !in rest :: Disjoint(p, ai)
        decreases rest
      {
        var p :| p in rest;
        rest := rest - {p};
        if p.bsId == ai.bsId {
          var caps := new AgentCapabilities.Copy(p.capabilities);
          var orthogonal := caps.Orthogonal(ai.capabilities);
          if !orthogonal {
            assert p in Waiting(State(), ai.bsId);
            return false;
          }
        }
      }
      pendingAgents := pendingAgents + {ai};
      return true;
    }

    method RemovePendingAgent(agentId: nat)
      modifies this`pendingAgents
      ensures PendingDropped(old(State()), agentId, State())
    {
      if a :| a in pendingAgents && a.agentId == agentId {
        pendingAgents := pendingAgents - {a};
      }
    }

    /** Merges the capabilities of two or more agents; fails as soon as one overlaps those before it. */
    method MergeCapabilities(agents: set<AgentInfo>) returns (overlap: bool, complete: bool)
      requires |agents| > 1
      ensures overlap <==> !PairwiseDisjoint(agents)
      ensures !overlap ==> (complete <==> Covers(UnionCaps(agents)))
    {
      assert agents != {};
      var first :| first in agents;
      var caps := new AgentCapabilities.Copy(first.capabilities);
      var rest, seen := agents - {first}, {first};
      complete := false;
      while rest != {}
        invariant seen + rest == agents && seen !! rest
        invariant PairwiseDisjoint(seen)
        invariant CapSet(caps.caps) == UnionCaps(seen)
        decreases rest
      {
        var a :| a in rest;
        var orthogonal := caps.Orthogonal(a.capabilities);
        if !orthogonal {
          OverlapWithUnion(seen, a);
          return true, false;
        }
        caps.MergeIn(a.capabilities);
        CanonicalList(UnionCaps(seen) + CapSet(a.capabilities));
        UnionWithOne(seen, a);
        rest, seen := rest - {a}, seen + {a};
      }
      assert seen == agents;
      overlap := false;
      complete := caps.IsComplete();
    }

    /** Moves the agents from the pending ones to the index of known agents. */
    method IndexAgents(agents: set<AgentInfo>)
      modifies this`pendingAgents, this`agentConfigs
      ensures pendingAgents == old(pendingAgents) - agents
      ensures Emplaced(old(agentConfigs), agents, agentConfigs)
    {
      var rest := agents;
      while rest != {}
        invariant rest <= agents
        invariant pendingAgents == old(pendingAgents) - (agents - rest)
        invariant Emplaced(old(agentConfigs), agents - rest, agentConfigs)
        decreases rest
      {
        var a :| a in rest;
        pendingAgents := pendingAgents - {a};
        if a.agentId !in agentConfigs {
          agentConfigs := agentConfigs[a.agentId := a];
        }
        assert Ids(agents - (rest - {a})) == Ids(agents - rest) + {a.agentId} by {
          assert agents - (rest - {a}) == (agents - rest) + {a};
        }
        rest := rest - {a};
      }
      assert agents - rest == agents;
    }

    method NewEnbConfigEntry(bsId: nat) returns (o: Promotion)
      modifies this
      ensures PromotionStep(old(State()), bsId, o, State())
    {
      if bsId in enbConfigs {
        return NotPromoted;
      }
      var agents := set a | a in pendingAgents && a.bsId == bsId;
      assert agents == Waiting(State(), bsId);
      if |agents| == 1 {
        var a :| a in agents;
        OnlyMember(agents, a);
        var caps := new AgentCapabilities.Copy(a.capabilities);
        var complete := caps.IsComplete();
        if complete {
          enbConfigs := enbConfigs[bsId := agents];
          IndexAgents(agents);
          return Promoted;
        }
      }
      if |agents| > 1 {
        var overlap, complete := MergeCapabilities(agents);
        if overlap {
          return OverlapThrown;
        }
        if complete {
          enbConfigs := enbConfigs[bsId := agents];
          IndexAgents(agents);
          return Promoted;
        }
      }
      assert agents == {} ==> 0 !in UnionCaps(agents);
      return NotPromoted;
    }

    method RemoveEnbConfigEntry(agentId: nat) returns (removed: bool)
      requires LookupSafe(State(), agentId)
      modifies this
      ensures removed <==> agentId in old(agentConfigs)
      ensures State() == if removed then TornDown(old(State()), agentId) else old(State())
    {
      if agentId !in agentConfigs {
        return false;
      }
      var disconnected := agentConfigs[agentId];
      var all := enbConfigs[disconnected.bsId];
      enbConfigs := enbConfigs - {disconnected.bsId};
      var rest := all;
      while rest != {}
        invariant rest <= all
        invariant enbConfigs == old(enbConfigs) - {disconnected.bsId} && pendingAgents == old(pendingAgents)
        invariant agentConfigs == old(agentConfigs) - Ids(all - rest)
        decreases rest
      {
        var b :| b in rest;
        agentConfigs := agentConfigs - {b.agentId};
        assert Ids(all - (rest - {b})) == Ids(all - rest) + {b.agentId} by {
          assert all - (rest - {b}) == (all - rest) + {b};
        }
        rest := rest - {b};
      }
      assert all - rest == all;
      var survivors := all - {disconnected};
      rest := survivors;
      while rest != {}
        invariant rest <= survivors
        invariant enbConfigs == old(enbConfigs) - {disconnected.bsId}
        invariant agentConfigs == old(agentConfigs) - Ids(all)
        invariant pendingAgents == old(pendingAgents) + (survivors - rest)
        decreases rest
      {
        var b :| b in rest;
        pendingAgents := pendingAgents + {b};
        rest := rest - {b};
      }
      return true;
    }
  }

  lemma {:induction false} OnlyMember(agents: set<AgentInfo>, a: AgentInfo)
    requires |agents| == 1 && a in agents
    ensures agents == {a} && PairwiseDisjoint(agents) && UnionCaps(agents) == CapSet(a.capabilities)
  {
    forall b | b in agents
      ensures b == a
    {
      assert b != a ==> |agents - {a}| == 0 && b in agents - {a};
    }
  }

  lemma {:induction false} UnionWithOne(seen: set<AgentInfo>, a: AgentInfo)
    ensures UnionCaps(seen + {a}) == UnionCaps(seen) + CapSet(a.capabilities)
  {
  }

  lemma {:induction false} OverlapWithUnion(seen: set<AgentInfo>, a: AgentInfo)
    requires a !in seen && !(UnionCaps(seen) !! CapSet(a.capabilities))
    ensures exists b | b in seen :: b != a && !Disjoint(b, a)
  {
    var c: Capability :| c in UnionCaps(seen) && c in CapSet(a.capabilities);
    var b :| b in seen && c in CapSet(b.capabilities);
    assert !Disjoint(b, a);
  }
}
