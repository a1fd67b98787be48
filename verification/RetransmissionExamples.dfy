/** A retransmission of whole groups that waits beside free groups: its UE has low priority and a smaller share. */
module RetransmissionExamples {
  import opened Options
  import opened Primitives
  import opened UeScheduling
  import opened Allocation
  import opened Preprocessor
  import opened PreprocessorRun
  import opened Policy
  import opened PolicyRun
  import opened RoundProofs
  import opened Retransmissions
  import E = RoundExamples

  /** A grant that is no whole number of full groups holds the short last group. */
  lemma {:induction false} OddGrantHoldsLast(bw: Bandwidth, u: Alloc)
    requires bw == 50 && u.available == Rbs(bw, u.rbgs) && u.available % 3 != 0
    ensures u.rbgs[NbRbg(bw) - 1]
  {
    SizeOfFullGroups(bw, u.rbgs, FullGroups(bw));
    assert Rbs(bw, u.rbgs) == SizeOf(bw, u.rbgs, FullGroups(bw)) + (if u.rbgs[NbRbg(bw) - 1] then 2 else 0);
  }

  /** With a share of four, a demand of six gets a full group and, for the fourth block, the short last one. */
  lemma {:induction false} FirstTurnOfSix(bw: Bandwidth, reserved: RbgMap, active: nat, c: Cell, j: nat)
    requires bw == 50 && Opening(bw, reserved, c) && active > 0 && j < |c.ues|
    requires c.ues[j].required == 6 && c.ues[j].remaining1 == 4 && TurnMap(bw, false, c, j) == EmptyMap()
    ensures var u := Prepare(true, Round(bw, false, active, c).ues[j]);
      u.required == 6 && u.available == 5 && u.remaining == 2 && u.rbgs[NbRbg(bw) - 1]
  {
    AllFree(FullGroups(bw));
    FirstRoundGrants(bw, reserved, active, c, j);
    RoundFacts(bw, reserved, false, active, c);
    OddGrantHoldsLast(bw, Round(bw, false, active, c).ues[j]);
  }

  /** In the second round the UE has two blocks left to want, which is less than a full group. */
  lemma {:induction false} LowWaitsThoughCovered(bw: Bandwidth, reserved: RbgMap, active: nat, c: Cell, j: nat)
    requires bw == 50 && Opening(bw, reserved, c) && active > 0 && j < |c.ues|
    requires c.ues[j].required == 6 && c.ues[j].remaining1 == 4 && TurnMap(bw, false, c, j) == EmptyMap()
    ensures Covers(bw, EmptyMap(), 6) && Allocate(bw, active, c).ues[j].available == 5
  {
    EmptyMapCovers(bw, 6);
    FirstTurnOfSix(bw, reserved, active, c, j);
    var d := Round(bw, false, active, c);
    RoundFacts(bw, reserved, false, active, c);
    RoundIsTurn(bw, reserved, true, active, d, j);
    TurnComesTo(bw, Turn(TurnMap(bw, true, d, j), Prepare(true, d.ues[j])), 6);
  }

  // ---------- a round ----------

  /** A UE whose process 0 was not acknowledged. */
  function Nacked(blocks: nat, round: nat): UeState {
    UeState(Alloc(0, 0, 0, 0, EmptyMap(), false), FreshTx().(nbScheduled := FreshTx().nbScheduled[0 := blocks]),
            FreshHarq().(stats := FreshHarq().stats[0 := round]))
  }

  /** Three logical channels make a UE one of low priority; nothing is queued. */
  function Quiet(): UeInput {
    UeInput(UeReport([RlcReport(3, 0, 0)], Some(0), Some(3)), true, None)
  }

  /** Twelve UEs of low priority; the first is to be sent six blocks again, the others three. */
  ghost predicate Twelve(us: seq<UeState>, inps: seq<UeInput>) {
    && |us| == |inps| == 12 && us[0] == Nacked(6, 2)
    && (forall i | 0 < i < 12 :: us[i] == Nacked(3, 1))
    && forall i | 0 <= i < 12 :: inps[i] == Quiet()
  }

  lemma {:induction false} TwelveFit(us: seq<UeState>, inps: seq<UeInput>)
    requires Twelve(us, inps)
    ensures InputsOk(us, inps) && RecordsFit(50, us)
  {
    forall i | 0 <= i < 12
      ensures TxFits(50, us[i].tx)
    {
      assert us[i] == if i == 0 then Nacked(6, 2) else Nacked(3, 1);
    }
  }

  /** A round of the twelve. */
  ghost predicate RoundOfTwelve(t: TbsTable, us: seq<UeState>, inps: seq<UeInput>, x: Inside, us': seq<UeState>,
                                sents: seq<Option<Sent>>) {
    && Twelve(us, inps) && InputsOk(us, inps) && RecordsFit(50, us)
    && RoundStep(t, 50, us, inps, x, us', sents)
  }

  lemma {:induction false} QuietOpens(t: TbsTable, blocks: nat, round: nat)
    requires round > 0
    ensures var v := Chosen(Opened(t, 50, Nacked(blocks, round), Quiet().report));
      v.alloc == Alloc(blocks, 0, 0, 0, EmptyMap(), false) && NextHarq(v.harq, 0) == 0
    ensures Pending(Nacked(blocks, round)) && Recorded(Nacked(blocks, round)) == blocks
    ensures StatsOf(Nacked(blocks, round).harq, Quiet().report).harqRound == round
  {
    var rlc := [RlcReport(3, 0, 0)];
    assert rlc[..0] == [] && QueuedBytes(rlc) == 0;
    assert NextHarq(Nacked(blocks, round).harq, 0) == 0;
  }

  lemma {:induction false} AllCounted(us: seq<UeState>, n: nat)
    requires n <= |us| && forall i | 0 <= i < n :: IsActive(us[i].alloc, us[i].harq)
    ensures ActiveCount(us, n) == n
  {
    if n == 0 {
    } else {
      AllCounted(us, n - 1);
    }
  }

  /** The first UE was sent to more often, so it is served first. */
  lemma {:induction false} FirstIsFirst(t: TbsTable, us: seq<UeState>, inps: seq<UeInput>, order: seq<nat>)
    requires Twelve(us, inps) && InputsOk(us, inps) && IsPermutation(order, 12)
    requires IsOrdered(StatsAll(OpenedAll(t, 50, us, Reports(inps)), Reports(inps)), order)
    ensures order[0] == 0
  {
    var stats := StatsAll(OpenedAll(t, 50, us, Reports(inps)), Reports(inps));
    QuietOpens(t, 6, 2);
    QuietOpens(t, 3, 1);
    forall i | 0 < i < 12
      ensures !CompareStats(stats[i], stats[0])
    {
      assert us[i] == Nacked(3, 1);
    }
    var k := PlaceOf(order, 0);
    assert order[k] == 0;
  }

  /** What the rounds start from. */
  lemma {:induction false} TwelveServed(t: TbsTable, us: seq<UeState>, inps: seq<UeInput>, order: seq<nat>)
    requires Twelve(us, inps) && InputsOk(us, inps) && IsPermutation(order, 12) && order[0] == 0
    ensures Active(t, 50, us, Reports(inps), order) == 12
    ensures var c := ServingCell(t, 50, EmptyMap(), us, Reports(inps), order);
      && c.ues[0].required == 6 && c.ues[0].remaining1 == 4
      && forall k | 0 <= k < 12 :: !c.ues[k].high
  {
    var served := ChosenAll(Permuted(order, OpenedAll(t, 50, us, Reports(inps))));
    QuietOpens(t, 6, 2);
    QuietOpens(t, 3, 1);
    forall k | 0 <= k < 12
      ensures served[k].alloc == Alloc(if order[k] == 0 then 6 else 3, 0, 0, 0, EmptyMap(), false)
      ensures IsActive(served[k].alloc, served[k].harq)
    {
      assert us[order[k]] == if order[k] == 0 then Nacked(6, 2) else Nacked(3, 1);
    }
    AllCounted(served, 12);
  }

  lemma {:induction false} LowMeetsTheMap(bw: Bandwidth, c: Cell)
    requires |c.ues| > 0 && forall k | 0 <= k < |c.ues| :: !c.ues[k].high
    ensures TurnMap(bw, false, c, 0) == c.vrb
  {
    NobodyServed(bw, true, |c.ues|, Cell(c.vrb, PrepareAll(false, c.ues)));
  }

  /** The first UE is granted five of its six blocks. */
  lemma {:induction false} FirstIsShort(t: TbsTable, us: seq<UeState>, inps: seq<UeInput>, x: Inside, us': seq<UeState>,
                                        sents: seq<Option<Sent>>)
    requires RoundOfTwelve(t, us, inps, x, us', sents)
    ensures x.mid[0].alloc.available == 5 && sents[0].None?
  {
    FirstIsFirst(t, us, inps, x.order);
    TwelveServed(t, us, inps, x.order);
    QuietOpens(t, 6, 2);
    var c := ServingCell(t, 50, EmptyMap(), us, Reports(inps), x.order);
    PendingIsServed(t, 50, EmptyMap(), us, Reports(inps), x.order, x.vrb, x.mid, 0);
    LowMeetsTheMap(50, c);
    LowWaitsThoughCovered(50, EmptyMap(), 12, c, 0);
    PendingIsSentIfGranted(t, 50, us, inps, x, us', sents, 0);
  }

  /** Every other UE is granted three blocks at most, since the first has the last group. */
  lemma {:induction false} OthersGetThree(t: TbsTable, us: seq<UeState>, inps: seq<UeInput>, x: Inside,
                                          us': seq<UeState>, sents: seq<Option<Sent>>, i: nat)
    requires RoundOfTwelve(t, us, inps, x, us', sents) && 0 < i < 12 && x.mid[0].alloc.available == 5
    ensures x.mid[i].alloc.available <= 3
  {
    QuietOpens(t, 3, 1);
    PendingIsSentIfGranted(t, 50, us, inps, x, us', sents, i);
    HandOver(t, 50, EmptyMap(), us, Reports(inps), x.order, x.vrb, x.mid);
    GrantsDisjoint(t, 50, EmptyMap(), us, Reports(inps), x.order, x.vrb, x.mid, 0, i);
    WithoutLast(us[0], x.mid[0], us[i], x.mid[i]);
  }

  lemma {:induction false} WithoutLast(u: UeState, mid: UeState, v: UeState, mid': UeState)
    requires HandedOver(50, u, mid) && HandedOver(50, v, mid') && mid.alloc.available == 5
    requires DisjointMaps(mid.alloc.rbgs, mid'.alloc.rbgs)
    ensures mid'.alloc.available <= mid'.alloc.required
  {
    OddGrantHoldsLast(50, mid.alloc);
  }

  lemma {:induction false} GrantedAtMost(ues: seq<Alloc>, n: nat)
    requires 0 < n <= |ues| && ues[0].available <= 5 && forall i | 0 < i < n :: ues[i].available <= 3
    ensures Granted(ues, n) <= 2 + 3 * n
  {
    if n == 1 {
      assert Granted(ues, 0) == 0;
    } else {
      GrantedAtMost(ues, n - 1);
    }
  }

  lemma {:induction false} FreeInComplement(v: RbgMap, n: nat)
    requires n <= N_RBG_MAX
    ensures FreeBelow(Complement(v), n) + FreeBelow(v, n) == n
  {
    if n == 0 {
    } else {
      FreeInComplement(v, n - 1);
    }
  }

  lemma {:induction false} FreeBlocks(bw: Bandwidth, v: RbgMap)
    requires bw == 50 && Rbs(bw, Complement(v)) >= 12
    ensures FreeFull(bw, v) >= 4
  {
    FreeInComplement(v, FullGroups(bw));
    SizeOfFullGroups(bw, Complement(v), FullGroups(bw));
    assert Rbs(bw, Complement(v)) <= SizeOf(bw, Complement(v), FullGroups(bw)) + 2;
  }

  lemma {:induction false} TwelveAreGranted(t: TbsTable, us: seq<UeState>, inps: seq<UeInput>, x: Inside,
                                            us': seq<UeState>, sents: seq<Option<Sent>>)
    requires RoundOfTwelve(t, us, inps, x, us', sents) && x.mid[0].alloc.available == 5
    ensures Granted(AllocsOf(x.mid), |x.mid|) <= 38
  {
    forall i: nat | 0 < i < 12
      ensures AllocsOf(x.mid)[i].available <= 3
    {
      OthersGetThree(t, us, inps, x, us', sents, i);
    }
    GrantedAtMost(AllocsOf(x.mid), |x.mid|);
  }

  lemma {:induction false} TwelveBlocksStayFree(t: TbsTable, bw: Bandwidth, us: seq<UeState>, inps: seq<UeInput>,
                                                x: Inside)
    requires bw == 50 && InputsOk(us, inps) && RecordsFit(bw, us)
    requires Preprocessed(t, bw, EmptyMap(), us, Reports(inps), x.order, x.vrb, x.mid)
    requires Granted(AllocsOf(x.mid), |x.mid|) <= 38
    ensures Rbs(bw, Complement(x.vrb)) >= 12
  {
    BlocksAreConserved(t, bw, EmptyMap(), us, Reports(inps), x.order, x.vrb, x.mid);
    EmptySize(bw, EmptyMap(), NbRbg(bw));
  }

  /**
   * A round of a cell of 50 blocks in which a retransmission of six waits although its control information fits, two
   * full groups would do, and four stay free.
   */
  lemma {:induction false} LowWaitsBesideFreeGroups(t: TbsTable, bw: Bandwidth)
    returns (us: seq<UeState>, inps: seq<UeInput>, x: Inside, us': seq<UeState>, sents: seq<Option<Sent>>)
    requires bw == 50
    ensures RoundOfTwelve(t, us, inps, x, us', sents)
    ensures Pending(us[0]) && Recorded(us[0]) == 6 && inps[0].cceFeasible
    ensures sents[0].None? && Covers(bw, EmptyMap(), 6) && FreeFull(bw, x.vrb) >= 4
  {
    us := [Nacked(6, 2)] + seq(11, _ => Nacked(3, 1));
    inps := seq(12, _ => Quiet());
    TwelveFit(us, inps);
    x, us', sents := E.EveryInputHasARound(t, 50, us, inps, 0);
    FirstIsShort(t, us, inps, x, us', sents);
    QuietOpens(t, 6, 2);
    EmptyMapCovers(bw, 6);
    TwelveAreGranted(t, us, inps, x, us', sents);
    TwelveBlocksStayFree(t, bw, us, inps, x);
    FreeBlocks(bw, x.vrb);
  }
}
