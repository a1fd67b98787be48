/** What holds in every run of hello and disconnect messages. */
module RibProofs {
  import opened AgentInfos
  import opened Ribs
  import opened RibUpdaters

  // ---------- runs ----------

  datatype Stage = Stage(event: Event, outcome: Outcome, after: Sys)

  function Last(r: seq<Stage>): Sys {
    if r == [] then Init() else r[|r| - 1].after
  }

  function Earlier(r: seq<Stage>): seq<Stage>
    requires r != []
  {
    r[..|r| - 1]
  }

  ghost predicate IsRun(r: seq<Stage>) {
    r != [] ==>
      var now := r[|r| - 1];
      IsRun(Earlier(r)) && Step(Last(Earlier(r)), now.event, now.outcome, now.after)
  }

  // ---------- the invariant of the three containers ----------

  ghost predicate LiveInv(s: RibState) {
    forall b | b in s.enbConfigs ::
      && b != 0
      && (forall a | a in s.enbConfigs[b] :: a.bsId == b && a.capabilities != [])
      && PairwiseDisjoint(s.enbConfigs[b])
      && Covers(UnionCaps(s.enbConfigs[b]))
  }

  ghost predicate PendingInv(s: RibState) {
    && (forall a | a in s.pendingAgents :: a.bsId != 0 && a.bsId !in s.enbConfigs && a.capabilities != [])
    && forall b :: PairwiseDisjoint(Waiting(s, b))
  }

  ghost predicate IndexInv(s: RibState) {
    forall id | id in s.agentConfigs ::
      var a := s.agentConfigs[id];
      a.agentId == id && a.bsId in s.enbConfigs && a in s.enbConfigs[a.bsId]
  }

  ghost predicate RibInv(s: RibState) {
    LiveInv(s) && PendingInv(s) && IndexInv(s)
  }

  lemma {:induction false} DisjointSubset(s: set<AgentInfo>, t: set<AgentInfo>)
    requires s <= t && PairwiseDisjoint(t)
    ensures PairwiseDisjoint(s)
  {
  }

  /** Admitting an agent keeps the waiting groups disjoint, so the promotion that follows cannot throw. */
  lemma {:induction false} AdmitKeepsInvariant(s: RibState, ai: AgentInfo)
    requires RibInv(s) && Admissible(s, ai) && ai.bsId !in s.enbConfigs
    ensures RibInv(s.(pendingAgents := s.pendingAgents + {ai}))
  {
    var mid := s.(pendingAgents := s.pendingAgents + {ai});
    forall b
      ensures PairwiseDisjoint(Waiting(mid, b))
    {
      assert Waiting(mid, b) == Waiting(s, b) + (if b == ai.bsId then {ai} else {});
      assert PairwiseDisjoint(Waiting(s, b));
    }
  }

  lemma {:induction false} PromotionKeepsInvariant(s: RibState, b: nat, o: Promotion, s': RibState)
    requires RibInv(s) && b != 0 && PromotionStep(s, b, o, s')
    ensures RibInv(s') && o != OverlapThrown
  {
    var w := Waiting(s, b);
    assert PairwiseDisjoint(w);
    if o == Promoted {
      forall c
        ensures PairwiseDisjoint(Waiting(s', c))
      {
        DisjointSubset(Waiting(s', c), Waiting(s, c));
      }
    }
  }

  lemma {:induction false} TearDownKeepsInvariant(s: RibState, id: nat)
    requires RibInv(s) && id in s.agentConfigs
    ensures RibInv(TornDown(s, id))
  {
    var s' := TornDown(s, id);
    var b := s.agentConfigs[id].bsId;
    forall c
      ensures PairwiseDisjoint(Waiting(s', c))
    {
      if c == b {
        assert Waiting(s', b) <= s.enbConfigs[b];
      } else {
        assert Waiting(s', c) == Waiting(s, c);
        assert PairwiseDisjoint(Waiting(s, c));
      }
    }
  }

  lemma {:induction false} DropKeepsInvariant(s: RibState, id: nat, s': RibState)
    requires RibInv(s) && PendingDropped(s, id, s')
    ensures RibInv(s')
  {
    forall c
      ensures PairwiseDisjoint(Waiting(s', c))
    {
      DisjointSubset(Waiting(s', c), Waiting(s, c));
    }
  }

  lemma {:induction false} StepKeepsInvariant(s: Sys, e: Event, o: Outcome, s': Sys)
    requires RibInv(s.rib) && Step(s, e, o, s')
    ensures RibInv(s'.rib) && o != OverlapException && o != DanglingLookup
  {
    match e {
      case Hello(_, _, _, _) =>
        var ai := HelloAgent(e);
        if o != Released {
          AdmitKeepsInvariant(s.rib, ai);
          var mid := s.rib.(pendingAgents := s.rib.pendingAgents + {ai});
          var p := if o == BsAdded then Promoted else if o == Pending then NotPromoted else OverlapThrown;
          PromotionKeepsInvariant(mid, ai.bsId, p, s'.rib);
        }
      case Disconnect(id) =>
        if id in s.rib.agentConfigs {
          TearDownKeepsInvariant(s.rib, id);
        } else {
          DropKeepsInvariant(s.rib, id, s'.rib);
        }
    }
  }

  /** In every run the containers agree; the overlap exception and the dangling lookup never happen. */
  lemma {:induction false} EveryRunIsSafe(r: seq<Stage>)
    requires IsRun(r)
    ensures RibInv(Last(r).rib)
    ensures forall i | 0 <= i < |r| :: r[i].outcome != OverlapException && r[i].outcome != DanglingLookup
  {
    if r == [] {
    } else {
      EveryRunIsSafe(Earlier(r));
      var now := r[|r| - 1];
      StepKeepsInvariant(Last(Earlier(r)), now.event, now.outcome, now.after);
      assert forall i | 0 <= i < |r| - 1 :: r[i] == Earlier(r)[i];
    }
  }

  // ---------- promotion, and where agents go ----------

  function Members(s: RibState): set<AgentInfo> {
    set b, a | b in s.enbConfigs && a in s.enbConfigs[b] :: a
  }

  function AllAgents(s: RibState): set<AgentInfo> {
    s.pendingAgents + Members(s)
  }

  /** An accepted hello makes its base station live exactly when the waiting capabilities are complete,
      with exactly the waiting agents as members, and adds exactly the one agent. */
  lemma {:induction false} PromotionIsExact(s: Sys, e: Event, o: Outcome, s': Sys)
    requires RibInv(s.rib) && e.Hello? && Step(s, e, o, s') && o != Released
    ensures
      var ai := HelloAgent(e);
      var waiting := Waiting(s.rib, ai.bsId) + {ai};
      && (o == BsAdded <==> Covers(UnionCaps(waiting)))
      && (ai.bsId in s'.rib.enbConfigs <==> Covers(UnionCaps(waiting)))
      && (o == BsAdded ==> s'.rib.enbConfigs == s.rib.enbConfigs[ai.bsId := waiting] && Waiting(s'.rib, ai.bsId) == {})
      && (o == Pending ==> s'.rib.enbConfigs == s.rib.enbConfigs && Waiting(s'.rib, ai.bsId) == waiting)
      && AllAgents(s'.rib) == AllAgents(s.rib) + {ai}
      && ai !in AllAgents(s.rib)
  {
    var ai := HelloAgent(e);
    AdmitKeepsInvariant(s.rib, ai);
    var mid := s.rib.(pendingAgents := s.rib.pendingAgents + {ai});
    var waiting := Waiting(s.rib, ai.bsId) + {ai};
    assert Waiting(mid, ai.bsId) == waiting;
    assert PairwiseDisjoint(Waiting(mid, ai.bsId));
    if o == BsAdded {
      forall a
        ensures a in AllAgents(s'.rib) <==> a in AllAgents(s.rib) + {ai}
      {
        if a in Members(s.rib) {
          assert s'.rib.enbConfigs[a.bsId] == s.rib.enbConfigs[a.bsId];
        }
        if a in waiting {
          assert a in s'.rib.enbConfigs[ai.bsId];
        }
      }
    }
  }

  /** A member's disconnect removes exactly that agent; every other member of its base station waits again. */
  lemma {:induction false} TearDownIsExact(s: Sys, id: nat, o: Outcome, s': Sys)
    requires RibInv(s.rib) && Step(s, Disconnect(id), o, s') && id in s.rib.agentConfigs
    ensures
      var gone := s.rib.agentConfigs[id];
      && o == BsRemoved
      && s'.rib.enbConfigs == s.rib.enbConfigs - {gone.bsId}
      && Waiting(s'.rib, gone.bsId) == s.rib.enbConfigs[gone.bsId] - {gone}
      && AllAgents(s'.rib) == AllAgents(s.rib) - {gone}
  {
    var gone := s.rib.agentConfigs[id];
    forall a
      ensures a in AllAgents(s'.rib) <==> a in AllAgents(s.rib) - {gone}
    {
      if a in Members(s.rib) && a.bsId != gone.bsId {
        assert a in s'.rib.enbConfigs[a.bsId];
      }
    }
  }

  // ---------- one hello per session ----------

  /** Agent ids are unique, every agent is in one place, and the index holds exactly the members. */
  ghost predicate SessionInv(s: RibState) {
    && (forall a, b | a in AllAgents(s) && b in AllAgents(s) && a.agentId == b.agentId :: a == b)
    && s.pendingAgents !! Members(s)
    && s.agentConfigs.Keys == Ids(Members(s))
    && forall a | a in Members(s) :: s.agentConfigs[a.agentId] == a
  }

  ghost predicate HelloOncePerSession(r: seq<Stage>) {
    forall i, j | 0 <= i < j < |r| && r[i].event.Hello? && r[j].event.Hello? ::
      r[i].event.agentId != r[j].event.agentId
  }

  ghost predicate SaidHello(r: seq<Stage>, id: nat) {
    exists i | 0 <= i < |r| :: r[i].event.Hello? && r[i].event.agentId == id
  }

  /** A newcomer with a new id is told apart from all known agents. */
  lemma {:induction false} NewcomerIsDistinct(s: RibState, ai: AgentInfo, all: set<AgentInfo>)
    requires SessionInv(s) && ai.agentId !in Ids(AllAgents(s)) && all == AllAgents(s) + {ai}
    ensures forall a, b | a in all && b in all && a.agentId == b.agentId :: a == b
  {
    forall a | a in AllAgents(s)
      ensures a.agentId != ai.agentId
    {
      assert a.agentId in Ids(AllAgents(s));
    }
  }

  /** The index after a promotion: the old members keep their entries, the new ones get theirs. */
  lemma {:induction false} PromotedIndex(s: RibState, waiting: set<AgentInfo>, index: map<nat, AgentInfo>)
    requires s.agentConfigs.Keys == Ids(Members(s)) && forall a | a in Members(s) :: s.agentConfigs[a.agentId] == a
    requires Emplaced(s.agentConfigs, waiting, index)
    requires forall a, b | a in Members(s) + waiting && b in Members(s) + waiting && a.agentId == b.agentId :: a == b
    ensures index.Keys == Ids(Members(s) + waiting)
    ensures forall a | a in Members(s) + waiting :: index[a.agentId] == a
  {
    assert index.Keys == Ids(Members(s) + waiting);
    forall a | a in Members(s) + waiting
      ensures index[a.agentId] == a
    {
      assert a.agentId in Ids(Members(s) + waiting);
      if a.agentId in s.agentConfigs {
        var b :| b in Members(s) && b.agentId == a.agentId;
      }
    }
  }

  /** A promotion of a waiting group moves it from the pending agents to the members and the index. */
  lemma {:induction false} PromotionKeepsSessions(s: RibState, ai: AgentInfo, waiting: set<AgentInfo>, s': RibState)
    requires SessionInv(s) && ai.agentId !in Ids(AllAgents(s)) && ai.bsId !in s.enbConfigs
    requires waiting == Waiting(s, ai.bsId) + {ai}
    requires s'.enbConfigs == s.enbConfigs[ai.bsId := waiting]
    requires s'.pendingAgents == s.pendingAgents - Waiting(s, ai.bsId)
    requires Emplaced(s.agentConfigs, waiting, s'.agentConfigs)
    ensures SessionInv(s')
  {
    NewcomerIsDistinct(s, ai, AllAgents(s) + {ai});
    PromotedMembers(s, ai.bsId, waiting, s');
    PromotedIndex(s, waiting, s'.agentConfigs);
    assert ai !in s.pendingAgents by {
      assert ai in s.pendingAgents ==> ai.agentId in Ids(AllAgents(s));
    }
    PendingStayApart(s.pendingAgents, Waiting(s, ai.bsId), Members(s), ai);
  }

  lemma {:induction false} PromotedMembers(s: RibState, bsId: nat, waiting: set<AgentInfo>, s': RibState)
    requires bsId !in s.enbConfigs && s'.enbConfigs == s.enbConfigs[bsId := waiting]
    ensures Members(s') == Members(s) + waiting
  {
    assert forall b | b in s.enbConfigs :: b in s'.enbConfigs && s'.enbConfigs[b] == s.enbConfigs[b];
    assert s'.enbConfigs[bsId] == waiting;
  }

  lemma {:induction false} PendingStayApart(pending: set<AgentInfo>, waiting: set<AgentInfo>, members: set<AgentInfo>,
                                            ai: AgentInfo)
    requires pending !! members && ai !in pending
    ensures pending - waiting !! members + (waiting + {ai})
  {
  }

  lemma {:induction false} HelloKeepsSessions(s: Sys, e: Event, o: Outcome, s': Sys)
    requires RibInv(s.rib) && SessionInv(s.rib) && e.Hello? && Step(s, e, o, s')
    requires e.agentId !in Ids(AllAgents(s.rib))
    ensures SessionInv(s'.rib)
  {
    if o != Released {
      var ai := HelloAgent(e);
      PromotionIsExact(s, e, o, s');
      if o == BsAdded {
        var waiting := Waiting(s.rib, ai.bsId) + {ai};
        var mid := s.rib.(pendingAgents := s.rib.pendingAgents + {ai});
        assert Waiting(mid, ai.bsId) == waiting;
        PromotionKeepsSessions(s.rib, ai, waiting, s'.rib);
      } else {
        NewcomerIsDistinct(s.rib, ai, AllAgents(s'.rib));
        assert Members(s'.rib) == Members(s.rib);
      }
    }
  }

  /** What is left of the members when one base station goes. */
  lemma {:induction false} TornDownMembers(s: RibState, id: nat)
    requires RibInv(s) && SessionInv(s) && id in s.agentConfigs
    ensures
      var s', all := TornDown(s, id), s.enbConfigs[s.agentConfigs[id].bsId];
      Members(s') == Members(s) - all && Ids(Members(s')) == Ids(Members(s)) - Ids(all)
  {
    var s', gone := TornDown(s, id), s.agentConfigs[id];
    var all := s.enbConfigs[gone.bsId];
    assert Members(s') == Members(s) - all by {
      forall a | a in Members(s) && a !in all
        ensures a in Members(s')
      {
        assert a in s'.enbConfigs[a.bsId];
      }
    }
    forall i
      ensures i in Ids(Members(s')) <==> i in Ids(Members(s)) && i !in Ids(all)
    {
      forall a, b | a in Members(s) && b in all
        ensures a.agentId == b.agentId ==> a == b
      {
        assert a in AllAgents(s) && b in AllAgents(s);
      }
    }
  }

  lemma {:induction false} DisconnectKeepsSessions(s: Sys, id: nat, o: Outcome, s': Sys)
    requires RibInv(s.rib) && SessionInv(s.rib) && Step(s, Disconnect(id), o, s')
    ensures SessionInv(s'.rib)
  {
    if id in s.rib.agentConfigs {
      TearDownIsExact(s, id, o, s');
      TornDownMembers(s.rib, id);
      assert s'.rib == TornDown(s.rib, id);
      assert s'.rib.pendingAgents !! Members(s'.rib);
      assert s'.rib.agentConfigs.Keys == Ids(Members(s'.rib));
    } else {
      assert Members(s'.rib) == Members(s.rib);
    }
  }

  lemma {:induction false} KnownAfter(s: Sys, e: Event, o: Outcome, s': Sys)
    requires RibInv(s.rib) && Step(s, e, o, s')
    ensures Ids(AllAgents(s'.rib)) <= Ids(AllAgents(s.rib)) + (if e.Hello? then {e.agentId} else {})
  {
    match e {
      case Hello(_, _, _, _) =>
        if o != Released {
          PromotionIsExact(s, e, o, s');
        }
      case Disconnect(id) =>
        if id in s.rib.agentConfigs {
          TearDownIsExact(s, id, o, s');
        } else {
          assert Members(s'.rib) == Members(s.rib);
        }
    }
  }

  /** If no agent says hello twice, pending agents and members partition the known agents in every run. */
  lemma {:induction false} SessionsPartition(r: seq<Stage>)
    requires IsRun(r) && HelloOncePerSession(r)
    ensures SessionInv(Last(r).rib)
    ensures forall id | id in Ids(AllAgents(Last(r).rib)) :: SaidHello(r, id)
  {
    if r == [] {
    } else {
      var before := Earlier(r);
      var now := r[|r| - 1];
      assert forall i | 0 <= i < |before| :: before[i] == r[i];
      SessionsPartition(before);
      EveryRunIsSafe(before);
      var s := Last(before);
      if now.event.Hello? {
        assert !SaidHello(before, now.event.agentId);
        HelloKeepsSessions(s, now.event, now.outcome, now.after);
      } else {
        DisconnectKeepsSessions(s, now.event.agentId, now.outcome, now.after);
      }
      KnownAfter(s, now.event, now.outcome, now.after);
      forall id | id in Ids(AllAgents(now.after.rib))
        ensures SaidHello(r, id)
      {
        if id in Ids(AllAgents(s.rib)) {
          var i :| 0 <= i < |before| && before[i].event.Hello? && before[i].event.agentId == id;
          assert r[i].event.Hello? && r[i].event.agentId == id;
        } else {
          assert r[|r| - 1].event.Hello? && r[|r| - 1].event.agentId == id;
        }
      }
    }
  }

  /** With one hello per session a disconnect of a known agent removes that agent and nothing else. */
  lemma {:induction false} DisconnectRemovesOne(r: seq<Stage>, id: nat, o: Outcome, s': Sys)
    requires IsRun(r) && HelloOncePerSession(r)
    requires Step(Last(r), Disconnect(id), o, s')
    ensures
      var s := Last(r).rib;
      AllAgents(s'.rib) == AllAgents(s) - (set a | a in AllAgents(s) && a.agentId == id)
    ensures o == UnknownAgent <==> id !in Ids(AllAgents(Last(r).rib))
  {
    SessionsPartition(r);
    EveryRunIsSafe(r);
    var s := Last(r);
    if id in s.rib.agentConfigs {
      TearDownIsExact(s, id, o, s');
      assert s.rib.agentConfigs[id] in s.rib.enbConfigs[s.rib.agentConfigs[id].bsId];
      assert s.rib.agentConfigs[id] in AllAgents(s.rib);
    } else {
      assert id !in Ids(Members(s.rib));
      assert Members(s'.rib) == Members(s.rib);
      if a :| a in AllAgents(s.rib) && a.agentId == id {
        assert a in s.rib.pendingAgents;
        assert forall b | b in AllAgents(s.rib) && b.agentId == id :: b == a;
        assert s'.rib.pendingAgents == s.rib.pendingAgents - {a};
      }
    }
  }

  // ---------- complete groups that wait ----------

  /** The design intention: whenever the connected agents of a base station are complete, it is live. */
  ghost predicate CompleteGroupsAreLive(s: RibState) {
    forall b :: !Covers(UnionCaps(Waiting(s, b)))
  }

  ghost predicate HasBaseCapability(a: AgentInfo) {
    exists c | c in CapSet(a.capabilities) :: c < BASE_CAPABILITIES
  }

  lemma {:induction false} UnionMonotone(s: set<AgentInfo>, t: set<AgentInfo>)
    requires s <= t
    ensures UnionCaps(s) <= UnionCaps(t)
  {
  }

  /** What is left of a complete disjoint group is complete exactly when the leaver had no base capability. */
  lemma {:induction false} SurvivorsComplete(all: set<AgentInfo>, gone: AgentInfo)
    requires gone in all && PairwiseDisjoint(all) && Covers(UnionCaps(all))
    ensures Covers(UnionCaps(all - {gone})) <==> !HasBaseCapability(gone)
  {
    if HasBaseCapability(gone) {
      var c :| c in CapSet(gone.capabilities) && c < BASE_CAPABILITIES;
      forall a | a in all - {gone}
        ensures c !in CapSet(a.capabilities)
      {
        assert Disjoint(a, gone);
      }
      assert c !in UnionCaps(all - {gone});
    } else {
      forall c: Capability | c < BASE_CAPABILITIES
        ensures c in UnionCaps(all - {gone})
      {
        assert c in UnionCaps(all);
      }
    }
  }

  /** The intention is kept by every step but one kind: a member without base capabilities disconnects. */
  lemma {:induction false} IntentionKeptExactlyWhen(s: Sys, e: Event, o: Outcome, s': Sys)
    requires RibInv(s.rib) && CompleteGroupsAreLive(s.rib) && Step(s, e, o, s')
    ensures CompleteGroupsAreLive(s'.rib) <==>
            (e.Disconnect? && e.agentId in s.rib.agentConfigs ==> HasBaseCapability(s.rib.agentConfigs[e.agentId]))
  {
    match e {
      case Hello(_, _, _, _) =>
        if o != Released {
          PromotionIsExact(s, e, o, s');
          var ai := HelloAgent(e);
          forall b
            ensures !Covers(UnionCaps(Waiting(s'.rib, b)))
          {
            if b != ai.bsId {
              assert Waiting(s'.rib, b) == Waiting(s.rib, b);
            } else if o == BsAdded {
              assert 0 !in UnionCaps(Waiting(s'.rib, b));
            }
          }
        }
      case Disconnect(id) =>
        if id in s.rib.agentConfigs {
          TearDownIsExact(s, id, o, s');
          var gone := s.rib.agentConfigs[id];
          SurvivorsComplete(s.rib.enbConfigs[gone.bsId], gone);
          forall b | b != gone.bsId
            ensures !Covers(UnionCaps(Waiting(s'.rib, b)))
          {
            assert Waiting(s'.rib, b) == Waiting(s.rib, b);
          }
        } else {
          forall b
            ensures !Covers(UnionCaps(Waiting(s'.rib, b)))
          {
            UnionMonotone(Waiting(s'.rib, b), Waiting(s.rib, b));
          }
        }
    }
  }

  /** The intention holds at every stage of the run. */
  ghost predicate IntentionAlways(r: seq<Stage>) {
    CompleteGroupsAreLive(Last(r).rib) && (r != [] ==> IntentionAlways(Earlier(r)))
  }

  /** No member without base capabilities disconnects in the run. */
  ghost predicate LeaversHaveBase(r: seq<Stage>) {
    r != [] ==>
      var s, e := Last(Earlier(r)).rib, r[|r| - 1].event;
      && LeaversHaveBase(Earlier(r))
      && (e.Disconnect? && e.agentId in s.agentConfigs ==> HasBaseCapability(s.agentConfigs[e.agentId]))
  }

  lemma {:induction false} InitIsIntended()
    ensures CompleteGroupsAreLive(Init().rib)
  {
    forall b
      ensures 0 !in UnionCaps(Waiting(Init().rib, b))
    {
    }
  }

  /** Over a whole run the intention holds exactly as long as no member without base capabilities disconnects. */
  lemma {:induction false} IntentionAlwaysExactlyWhen(r: seq<Stage>)
    requires IsRun(r)
    ensures IntentionAlways(r) <==> LeaversHaveBase(r)
  {
    if r == [] {
      InitIsIntended();
    } else {
      var now := r[|r| - 1];
      IntentionAlwaysExactlyWhen(Earlier(r));
      EveryRunIsSafe(Earlier(r));
      if CompleteGroupsAreLive(Last(Earlier(r)).rib) {
        IntentionKeptExactlyWhen(Last(Earlier(r)), now.event, now.outcome, now.after);
      }
    }
  }

  // The agents of the run below: one offers S1AP only, the other sent an empty capability list.
  const S1AP_HELLO := Hello(1, 7, [8], true)
  const FULL_HELLO := Hello(2, 7, [], true)

  lemma {:induction false} S1apJoins(a1: AgentInfo)
    requires a1 == HelloAgent(S1AP_HELLO)
    ensures CapSet(a1.capabilities) == {8}
    ensures Step(Init(), S1AP_HELLO, Pending, Sys(RibState(map[], map[], {a1}), {}, []))
  {
    CanonicalList({8});
    assert CapSet([8]) == {8};
    assert 8 in CapSet(a1.capabilities);
    var mid := RibState(map[], map[], {a1});
    assert {} + {a1} == {a1};
    assert Waiting(mid, 7) == {a1};
    assert Waiting(Init().rib, 7) == {};
    assert Admissible(Init().rib, a1);
    assert 0 !in UnionCaps({a1});
    assert PromotionStep(mid, 7, NotPromoted, mid) && !PromotionStep(mid, 7, Promoted, mid);
  }

  lemma {:induction false} FullJoins(a1: AgentInfo, a2: AgentInfo)
    requires a1 == HelloAgent(S1AP_HELLO) && CapSet(a1.capabilities) == {8} && a2 == HelloAgent(FULL_HELLO)
    ensures CapSet(a2.capabilities) == CapSet(FULL_CAPABILITIES)
    ensures Step(Sys(RibState(map[], map[], {a1}), {}, []), FULL_HELLO, BsAdded,
                 Sys(RibState(map[7 := {a1, a2}], map[1 := a1, 2 := a2], {}), {7}, [BsAdd(7)]))
  {
    CanonicalList(CapSet(FULL_CAPABILITIES));
    assert 0 in CapSet(a2.capabilities);
    var mid := RibState(map[], map[], {a1, a2});
    assert {a1} + {a2} == {a1, a2};
    assert Waiting(mid, 7) == {a1, a2};
    assert Disjoint(a1, a2) && Disjoint(a2, a1);
    assert Covers(CapSet(FULL_CAPABILITIES));
    UnionMonotone({a2}, {a1, a2});
    assert CapSet(a2.capabilities) <= UnionCaps({a2});
    assert Ids({a1, a2}) == {1, 2};
  }

  lemma {:induction false} S1apLeaves(a1: AgentInfo, a2: AgentInfo)
    requires a1.agentId == 1 && a2.agentId == 2 && a1.bsId == 7
    ensures Step(Sys(RibState(map[7 := {a1, a2}], map[1 := a1, 2 := a2], {}), {7}, [BsAdd(7)]),
                 Disconnect(1), BsRemoved,
                 Sys(RibState(map[], map[], {a2}), {}, [BsAdd(7), BsRemove(7)]))
  {
    assert {a1, a2} - {a1} == {a2};
    assert Ids({a1, a2}) == {1, 2};
    assert map[1 := a1, 2 := a2] - {1, 2} == map[];
  }

  lemma {:induction false} ThreeSteps(t1: Stage, t2: Stage, t3: Stage)
    requires Step(Init(), t1.event, t1.outcome, t1.after) && Step(t1.after, t2.event, t2.outcome, t2.after)
    requires Step(t2.after, t3.event, t3.outcome, t3.after)
    ensures IsRun([t1, t2, t3])
  {
    assert Earlier([t1]) == [] && IsRun([]);
    assert IsRun([t1]);
    assert Earlier([t1, t2]) == [t1];
    assert IsRun([t1, t2]);
    assert Earlier([t1, t2, t3]) == [t1, t2];
  }

  /** A run that breaks the intention: the S1AP agent joins, then the full one, then the S1AP agent leaves. */
  lemma {:induction false} ACompleteAgentCanWait() returns (r: seq<Stage>)
    ensures IsRun(r) && HelloOncePerSession(r) && |r| == 3
    ensures !CompleteGroupsAreLive(Last(r).rib) && Last(r).rib.enbConfigs == map[]
  {
    var a1, a2 := HelloAgent(S1AP_HELLO), HelloAgent(FULL_HELLO);
    S1apJoins(a1);
    FullJoins(a1, a2);
    S1apLeaves(a1, a2);
    var t1 := Stage(S1AP_HELLO, Pending, Sys(RibState(map[], map[], {a1}), {}, []));
    var t2 := Stage(FULL_HELLO, BsAdded, Sys(RibState(map[7 := {a1, a2}], map[1 := a1, 2 := a2], {}), {7}, [BsAdd(7)]));
    var t3 := Stage(Disconnect(1), BsRemoved, Sys(RibState(map[], map[], {a2}), {}, [BsAdd(7), BsRemove(7)]));
    ThreeSteps(t1, t2, t3);
    r := [t1, t2, t3];
    FullAgentIsComplete(t3.after.rib, a2);
  }

  lemma {:induction false} FullAgentIsComplete(s: RibState, a: AgentInfo)
    requires s.pendingAgents == {a} && CapSet(a.capabilities) == CapSet(FULL_CAPABILITIES)
    ensures !CompleteGroupsAreLive(s)
  {
    assert Covers(CapSet(FULL_CAPABILITIES));
    assert CapSet(a.capabilities) <= UnionCaps({a});
    assert Waiting(s, a.bsId) == {a};
  }

  // ---------- the event mirror ----------

  /** The base stations that the events so far say are live. */
  function LiveFromLog(log: seq<BsEvent>): set<nat> {
    if log == [] then {}
    else
      var before := LiveFromLog(log[..|log| - 1]);
      match log[|log| - 1]
      case BsAdd(b) => before + {b}
      case BsRemove(b) => before - {b}
  }

  /** Each base station is added only while absent and removed only while present. */
  ghost predicate Alternates(log: seq<BsEvent>) {
    forall i | 0 <= i < |log| ::
      match log[i]
      case BsAdd(b) => b !in LiveFromLog(log[..i])
      case BsRemove(b) => b in LiveFromLog(log[..i])
  }

  lemma {:induction false} AlternatesSnoc(log: seq<BsEvent>, e: BsEvent)
    requires Alternates(log)
    requires e.bsId in LiveFromLog(log) <==> e.BsRemove?
    ensures Alternates(log + [e])
    ensures LiveFromLog(log + [e]) == if e.BsAdd? then LiveFromLog(log) + {e.bsId} else LiveFromLog(log) - {e.bsId}
  {
    var l := log + [e];
    assert l[..|log|] == log;
    forall i | 0 <= i < |log|
      ensures l[..i] == log[..i] && l[i] == log[i]
    {
    }
  }

  ghost predicate Mirrored(s: Sys) {
    s.bsList == s.rib.enbConfigs.Keys == LiveFromLog(s.log) && Alternates(s.log)
  }

  lemma {:induction false} MirrorOfStep(s: Sys, e: BsEvent, s': Sys)
    requires Mirrored(s) && s'.log == s.log + [e]
    requires e.bsId in s.rib.enbConfigs <==> e.BsRemove?
    requires s'.bsList == s'.rib.enbConfigs.Keys
    requires s'.rib.enbConfigs.Keys
          == if e.BsAdd? then s.rib.enbConfigs.Keys + {e.bsId} else s.rib.enbConfigs.Keys - {e.bsId}
    ensures Mirrored(s')
  {
    AlternatesSnoc(s.log, e);
  }

  lemma {:induction false} StepKeepsMirror(s: Sys, e: Event, o: Outcome, s': Sys)
    requires RibInv(s.rib) && Mirrored(s) && Step(s, e, o, s')
    ensures Mirrored(s')
  {
    match e {
      case Hello(_, _, _, _) =>
        if o != Released {
          PromotionIsExact(s, e, o, s');
          if o == BsAdded {
            MirrorOfStep(s, BsAdd(HelloAgent(e).bsId), s');
          }
        }
      case Disconnect(id) =>
        if id in s.rib.agentConfigs {
          TearDownIsExact(s, id, o, s');
          MirrorOfStep(s, BsRemove(s.rib.agentConfigs[id].bsId), s');
        }
    }
  }

  /** The list kept from events alone is the set of live base stations, and add and remove alternate. */
  lemma {:induction false} EventsMirrorTheRib(r: seq<Stage>)
    requires IsRun(r)
    ensures Last(r).bsList == Last(r).rib.enbConfigs.Keys == LiveFromLog(Last(r).log)
    ensures Alternates(Last(r).log)
  {
    if r == [] {
    } else {
      var now := r[|r| - 1];
      EventsMirrorTheRib(Earlier(r));
      EveryRunIsSafe(Earlier(r));
      StepKeepsMirror(Last(Earlier(r)), now.event, now.outcome, now.after);
    }
  }
}
