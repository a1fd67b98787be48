/** What a hello does, said of its own fields: which agent joins, for which base station, and when. */
module Hellos {
  import opened AgentInfos
  import opened Ribs
  import opened RibUpdaters
  import opened RibProofs

  /** An agent that names no base station gets one of its own, with a number above 10000. */
  function Place(id: nat, bsId: nat): nat {
    if bsId == 0 then 10000 + id else bsId
  }

  /** An agent that lists no capabilities is taken to have the eight that make a base station. */
  predicate Offers(caps: seq<Capability>, c: Capability) {
    c in caps || (caps == [] && c < 8)
  }

  /** The agent is who said hello. */
  ghost predicate IsSpeaker(a: AgentInfo, id: nat, bsId: nat, caps: seq<Capability>) {
    && a.agentId == id && a.bsId == Place(id, bsId)
    && (forall c: Capability :: c in a.capabilities <==> Offers(caps, c))
    && forall i, j | 0 <= i < j < |a.capabilities| :: a.capabilities[i] < a.capabilities[j]
  }

  lemma {:induction false} SpeakerIs(id: nat, bsId: nat, caps: seq<Capability>, success: bool)
    ensures IsSpeaker(HelloAgent(Hello(id, bsId, caps, success)), id, bsId, caps)
  {
    var said := if caps == [] then FULL_CAPABILITIES else caps;
    CanonicalList(CapSet(said));
    var a := HelloAgent(Hello(id, bsId, caps, success));
    forall c: Capability
      ensures c in a.capabilities <==> Offers(caps, c)
    {
      assert c in a.capabilities <==> c in CapSet(a.capabilities);
      assert c in said <==> c in CapSet(said);
    }
  }

  /** Someone who waits for the base station offers one of the capabilities. */
  ghost predicate Overlaps(s: RibState, bsId: nat, caps: seq<Capability>) {
    exists p, c: Capability :: p in s.pendingAgents && p.bsId == bsId && c in p.capabilities && Offers(caps, c)
  }

  /**
   * A hello is accepted exactly if it succeeds, its base station is not live, no agent with its id waits, and it
   * offers nothing that an agent waiting for the base station offers.
   */
  lemma {:induction false} AcceptedExactlyWhen(s: Sys, id: nat, bsId: nat, caps: seq<Capability>, success: bool,
                                               o: Outcome, s': Sys)
    requires Step(s, Hello(id, bsId, caps, success), o, s')
    ensures o != Released <==>
      && success && Place(id, bsId) !in s.rib.enbConfigs
      && (forall p | p in s.rib.pendingAgents :: p.agentId != id)
      && !Overlaps(s.rib, Place(id, bsId), caps)
    ensures o == Released ==> s' == s
  {
    SpeakerIs(id, bsId, caps, success);
    var a := HelloAgent(Hello(id, bsId, caps, success));
    OffersSomething(caps, a);
    OverlapIs(s.rib, a, caps);
  }

  lemma {:induction false} OffersSomething(caps: seq<Capability>, a: AgentInfo)
    requires forall c: Capability :: c in a.capabilities <==> Offers(caps, c)
    ensures |a.capabilities| >= 1
  {
    var c: Capability := if caps == [] then 0 else caps[0];
    assert Offers(caps, c);
  }

  lemma {:induction false} OverlapIs(s: RibState, a: AgentInfo, caps: seq<Capability>)
    requires forall c: Capability :: c in a.capabilities <==> Offers(caps, c)
    ensures Overlaps(s, a.bsId, caps) <==> exists p | p in Waiting(s, a.bsId) :: !Disjoint(p, a)
  {
    if Overlaps(s, a.bsId, caps) {
      var p, c: Capability :| p in s.pendingAgents && p.bsId == a.bsId && c in p.capabilities && Offers(caps, c);
      assert c in CapSet(p.capabilities) && c in CapSet(a.capabilities);
      assert p in Waiting(s, a.bsId) && !Disjoint(p, a);
    }
    if p :| p in Waiting(s, a.bsId) && !Disjoint(p, a) {
      var c: Capability :| c in CapSet(p.capabilities) && c in CapSet(a.capabilities);
      assert c in p.capabilities && Offers(caps, c);
    }
  }

  /** The agent waits for its base station or is a member of it. */
  ghost predicate IsAtPlace(s: RibState, a: AgentInfo) {
    a in s.pendingAgents || (a.bsId in s.enbConfigs && a in s.enbConfigs[a.bsId])
  }

  /** An accepted hello adds exactly one agent, the one who spoke, at its place. */
  lemma {:induction false} AcceptedHelloAddsSpeaker(s: Sys, id: nat, bsId: nat, caps: seq<Capability>, success: bool,
                                                    o: Outcome, s': Sys)
    returns (a: AgentInfo)
    requires RibInv(s.rib) && Step(s, Hello(id, bsId, caps, success), o, s') && o != Released
    ensures IsSpeaker(a, id, bsId, caps) && a !in AllAgents(s.rib)
    ensures AllAgents(s'.rib) == AllAgents(s.rib) + {a} && IsAtPlace(s'.rib, a)
  {
    var e := Hello(id, bsId, caps, success);
    SpeakerIs(id, bsId, caps, success);
    PromotionIsExact(s, e, o, s');
    StepKeepsInvariant(s, e, o, s');
    a := HelloAgent(e);
    assert a in AllAgents(s'.rib);
  }

  /** An agent on its own, without a base station id and without a list of capabilities, makes its base station live. */
  lemma {:induction false} SoleAgentIsPromoted(s: Sys, id: nat, o: Outcome, s': Sys) returns (a: AgentInfo)
    requires RibInv(s.rib) && Step(s, Hello(id, 0, [], true), o, s')
    requires 10000 + id !in s.rib.enbConfigs
    requires forall p | p in s.rib.pendingAgents :: p.agentId != id && p.bsId != 10000 + id
    ensures IsSpeaker(a, id, 0, []) && o == BsAdded
    ensures s'.rib.enbConfigs == s.rib.enbConfigs[10000 + id := {a}]
    ensures s'.bsList == s.bsList + {10000 + id} && s'.log == s.log + [BsAdd(10000 + id)]
  {
    var e := Hello(id, 0, [], true);
    AcceptedExactlyWhen(s, id, 0, [], true, o, s');
    SpeakerIs(id, 0, [], true);
    PromotionIsExact(s, e, o, s');
    a := HelloAgent(e);
    assert Waiting(s.rib, 10000 + id) == {};
    assert Waiting(s.rib, 10000 + id) + {a} == {a};
    forall c: Capability | c < BASE_CAPABILITIES
      ensures c in UnionCaps({a})
    {
      assert Offers([], c) && c in CapSet(a.capabilities);
    }
  }

  // ---------- over runs ----------

  /** The agent is who said one of the hellos of the run. */
  ghost predicate Spoke(r: seq<Stage>, a: AgentInfo) {
    exists j | 0 <= j < |r| ::
      r[j].event.Hello? && IsSpeaker(a, r[j].event.agentId, r[j].event.bsId, r[j].event.capabilities)
  }

  lemma {:induction false} SpokeEarlier(r: seq<Stage>, a: AgentInfo)
    requires r != [] && Spoke(Earlier(r), a)
    ensures Spoke(r, a)
  {
    var j :| 0 <= j < |Earlier(r)| && Earlier(r)[j].event.Hello?
      && IsSpeaker(a, Earlier(r)[j].event.agentId, Earlier(r)[j].event.bsId, Earlier(r)[j].event.capabilities);
    assert r[j] == Earlier(r)[j];
  }

  lemma {:induction false} DisconnectAddsNobody(s: Sys, id: nat, o: Outcome, s': Sys)
    requires RibInv(s.rib) && Step(s, Disconnect(id), o, s')
    ensures AllAgents(s'.rib) <= AllAgents(s.rib)
  {
    if id in s.rib.agentConfigs {
      TearDownIsExact(s, id, o, s');
    } else {
      assert Members(s'.rib) == Members(s.rib);
    }
  }

  /** Whoever is known has said hello, with the place and the capabilities it is listed with. */
  lemma {:induction false} EveryoneSpoke(r: seq<Stage>)
    requires IsRun(r)
    ensures forall a | a in AllAgents(Last(r).rib) :: Spoke(r, a)
  {
    if r == [] {
      assert AllAgents(Init().rib) == {};
    } else {
      var s, now := Last(Earlier(r)), r[|r| - 1];
      EveryoneSpoke(Earlier(r));
      EveryRunIsSafe(Earlier(r));
      forall a | a in AllAgents(now.after.rib)
        ensures Spoke(r, a)
      {
        if a in AllAgents(s.rib) {
          SpokeEarlier(r, a);
        } else if now.event.Disconnect? {
          DisconnectAddsNobody(s, now.event.agentId, now.outcome, now.after);
        } else {
          NewcomerSpoke(s, now, a);
          assert r[|r| - 1] == now;
        }
      }
    }
  }

  lemma {:induction false} NewcomerSpoke(s: Sys, now: Stage, a: AgentInfo)
    requires RibInv(s.rib) && now.event.Hello? && Step(s, now.event, now.outcome, now.after)
    requires a in AllAgents(now.after.rib) && a !in AllAgents(s.rib)
    ensures IsSpeaker(a, now.event.agentId, now.event.bsId, now.event.capabilities)
  {
    var e := now.event;
    var b := AcceptedHelloAddsSpeaker(s, e.agentId, e.bsId, e.capabilities, e.success, now.outcome, now.after);
  }

  /** The agent never named a base station. */
  predicate Nameless(r: seq<Stage>, id: nat) {
    forall j | 0 <= j < |r| && r[j].event.Hello? && r[j].event.agentId == id :: r[j].event.bsId == 0
  }

  /** Two agents that name no base station are never at the same one. */
  lemma {:induction false} NamelessStayApart(r: seq<Stage>, a: AgentInfo, b: AgentInfo)
    requires IsRun(r) && a in AllAgents(Last(r).rib) && b in AllAgents(Last(r).rib) && a.agentId != b.agentId
    requires Nameless(r, a.agentId) && Nameless(r, b.agentId)
    ensures a.bsId == 10000 + a.agentId && b.bsId == 10000 + b.agentId && a.bsId != b.bsId
  {
    EveryoneSpoke(r);
    assert Spoke(r, a) && Spoke(r, b);
  }

  // ---------- the index of known agents ----------

  /** The message tears down a base station of which an agent with this id is a member. */
  ghost predicate Hits(s: RibState, e: Event, id: nat) {
    && e.Disconnect? && e.agentId in s.agentConfigs
    && var b := s.agentConfigs[e.agentId].bsId;
       b in s.enbConfigs && exists m | m in s.enbConfigs[b] :: m.agentId == id
  }

  lemma {:induction false} PromotionKeepsEntry(s: RibState, b: nat, o: Promotion, s': RibState, id: nat)
    requires PromotionStep(s, b, o, s') && id in s.agentConfigs
    ensures id in s'.agentConfigs && s'.agentConfigs[id] == s.agentConfigs[id]
  {
  }

  /**
   * An id has one entry, that of the member who came first: it stays until a base station with a member of this id is
   * torn down, and then it goes, even if another member has the id.
   */
  lemma {:induction false} EntryAfterStep(s: Sys, e: Event, o: Outcome, s': Sys, id: nat)
    requires RibInv(s.rib) && Step(s, e, o, s') && id in s.rib.agentConfigs
    ensures id in s'.rib.agentConfigs <==> !Hits(s.rib, e, id)
    ensures id in s'.rib.agentConfigs ==> s'.rib.agentConfigs[id] == s.rib.agentConfigs[id]
  {
    match e
    case Hello(_, _, _, _) =>
      if o != Released {
        StepKeepsInvariant(s, e, o, s');
        var mid := s.rib.(pendingAgents := s.rib.pendingAgents + {HelloAgent(e)});
        PromotionKeepsEntry(mid, HelloAgent(e).bsId, if o == BsAdded then Promoted else NotPromoted, s'.rib, id);
      }
    case Disconnect(leaver) =>
      if leaver in s.rib.agentConfigs {
        var all := s.rib.enbConfigs[s.rib.agentConfigs[leaver].bsId];
        assert id in Ids(all) <==> exists m | m in all :: m.agentId == id;
      }
  }

  /** A new entry is of a member of the base station that just went live. */
  lemma {:induction false} NewEntry(s: Sys, e: Event, o: Outcome, s': Sys, id: nat)
    requires RibInv(s.rib) && Step(s, e, o, s') && id in s'.rib.agentConfigs && id !in s.rib.agentConfigs
    ensures e.Hello? && o == BsAdded
    ensures var a := s'.rib.agentConfigs[id];
      a.agentId == id && a.bsId == Place(e.agentId, e.bsId) && a.bsId in s'.rib.enbConfigs
      && a in s'.rib.enbConfigs[a.bsId] && a.bsId !in s.rib.enbConfigs
  {
    StepKeepsInvariant(s, e, o, s');
    if e.Hello? {
      SpeakerIs(e.agentId, e.bsId, e.capabilities, e.success);
    }
  }

  /** Over any run, an entry is as it was `n` stages into it, unless a later message took it away. */
  lemma {:induction false} EntryStays(r: seq<Stage>, n: nat, id: nat)
    requires IsRun(r) && n <= |r| && id in Last(r[..n]).rib.agentConfigs
    requires forall k | n <= k < |r| :: !Hits(Last(r[..k]).rib, r[k].event, id)
    ensures id in Last(r).rib.agentConfigs
    ensures Last(r).rib.agentConfigs[id] == Last(r[..n]).rib.agentConfigs[id]
  {
    if n == |r| {
      assert r[..n] == r;
    } else {
      var init, now := Earlier(r), r[|r| - 1];
      forall k | n <= k < |init|
        ensures init[..k] == r[..k] && init[k] == r[k]
      {
      }
      assert init[..n] == r[..n];
      EntryStays(init, n, id);
      EveryRunIsSafe(init);
      EntryAfterStep(Last(init), now.event, now.outcome, now.after, id);
    }
  }
}
