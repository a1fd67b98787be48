/** One scheduling round of a cell, from the empty map to the bitmaps sent (`run_central_scheduler`,
    src/app/enb_scheduler_policy.cc). */
module PolicyRun {
  import opened Bits
  import opened Options
  import opened Primitives
  import opened UeScheduling
  import opened Allocation
  import opened Preprocessor
  import opened PreprocessorRun
  import opened Policy

  ghost predicate InputsOk(us: seq<UeState>, inps: seq<UeInput>) {
    |inps| == |us| && forall i | 0 <= i < |inps| :: ReportOk(inps[i].report)
  }

  function Reports(inps: seq<UeInput>): (r: seq<UeReport>)
    ensures |r| == |inps| && forall i | 0 <= i < |inps| :: r[i] == inps[i].report
  {
    seq(|inps|, i requires 0 <= i < |inps| => inps[i].report)
  }

  ghost predicate RecordsFit(bw: Bandwidth, us: seq<UeState>) {
    forall i | 0 <= i < |us| :: TxFits(bw, us[i].tx)
  }

  // ---------- what the preprocessor hands over ----------

  lemma {:induction false} SizedFits(t: TbsTable, bw: Bandwidth, u: UeState, r: UeReport)
    requires ReportOk(r)
    ensures
      var a := Opened(t, bw, u, r).alloc;
      a.required <= bw && a.remaining == a.remaining1 == a.available == 0 && IsEmpty(a.rbgs)
  {
    GridSearchBound(t, WidebandMcs(r), MinRbUnit(bw), bw, QueuedBytes(r.rlc), StartRbs(bw, WidebandMcs(r)));
  }

  lemma {:induction false} ChosenFits(t: TbsTable, bw: Bandwidth, u: UeState, r: UeReport)
    requires ReportOk(r) && TxFits(bw, u.tx)
    ensures
      var a := Chosen(Opened(t, bw, u, r)).alloc;
      a.required <= bw && a.remaining == a.remaining1 == a.available == 0 && IsEmpty(a.rbgs)
  {
    SizedFits(t, bw, u, r);
  }

  /** A UE's counters when the rounds begin. */
  ghost predicate Opens(bw: Bandwidth, a: Alloc) {
    && IsEmpty(a.rbgs) && a.available == 0 && a.remaining == 0
    && a.required <= bw && a.remaining1 <= a.required
  }

  /** The rounds start from demands that fit, shares within the demands, and no grants. */
  lemma {:induction false} OpeningHolds(t: TbsTable, bw: Bandwidth, vrb: RbgMap, us: seq<UeState>,
                                        reports: seq<UeReport>, order: seq<nat>)
    requires |us| == |reports| && forall i | 0 <= i < |reports| :: ReportOk(reports[i])
    requires RecordsFit(bw, us) && IsPermutation(order, |us|)
    ensures Opening(bw, vrb, OpeningCell(bw, vrb, ChosenAll(Permuted(order, OpenedAll(t, bw, us, reports)))))
  {
    var served := ChosenAll(Permuted(order, OpenedAll(t, bw, us, reports)));
    var c := OpeningCell(bw, vrb, served);
    forall k | 0 <= k < |c.ues|
      ensures Opens(bw, c.ues[k])
    {
      ChosenFits(t, bw, us[order[k]], reports[order[k]]);
      assert served[k] == Chosen(Opened(t, bw, us[order[k]], reports[order[k]]));
    }
  }

  /** The hand-over for one UE: what it was granted, and what it demands for a retransmission. */
  ghost predicate HandedOver(bw: Bandwidth, u: UeState, mid: UeState) {
    && StateFits(bw, mid) && mid.harq == u.harq && mid.tx == ChosenTx(u.tx, u.harq)
    && mid.alloc.available == Rbs(bw, mid.alloc.rbgs)
    && mid.alloc.available <= mid.alloc.required + ClampExcess(bw, mid.alloc)
    && (mid.alloc.required == 0 ==> mid.alloc.available == 0)
    && var p := NextHarq(u.harq, 0);
       p != -1 && u.harq.stats[p] > 0 ==> mid.alloc.required == u.tx.nbScheduled[p]
  }

  lemma {:induction false} HandOverOne(t: TbsTable, bw: Bandwidth, u: UeState, r: UeReport, a: Alloc)
    requires ReportOk(r) && TxFits(bw, u.tx) && a.required == Chosen(Opened(t, bw, u, r)).alloc.required
    requires a.available == Rbs(bw, a.rbgs) && a.available <= bw && a.available <= a.required + ClampExcess(bw, a)
    requires a.required == 0 ==> a.available == 0
    ensures HandedOver(bw, u, Chosen(Opened(t, bw, u, r)).(alloc := a))
  {
    SizedFits(t, bw, u, r);
  }

  lemma {:induction false} HandOverInOrder(t: TbsTable, bw: Bandwidth, vrb: RbgMap, us: seq<UeState>,
                                           reports: seq<UeReport>, order: seq<nat>, vrb': RbgMap, mid: seq<UeState>,
                                           k: nat)
    requires |us| == |reports| && (forall i | 0 <= i < |reports| :: ReportOk(reports[i])) && RecordsFit(bw, us)
    requires Preprocessed(t, bw, vrb, us, reports, order, vrb', mid) && k < |order|
    ensures HandedOver(bw, us[order[k]], mid[order[k]])
  {
    var served := ChosenAll(Permuted(order, OpenedAll(t, bw, us, reports)));
    var active, c := ActiveCount(served, |served|), OpeningCell(bw, vrb, served);
    OpeningHolds(t, bw, vrb, us, reports, order);
    UeOutcome(bw, vrb, active, c, k);
    var d := Allocate(bw, active, c);
    assert Permuted(order, mid)[k] == Updated(served, d.ues)[k];
    var i := order[k];
    assert served[k] == Chosen(Opened(t, bw, us[i], reports[i]));
    HandOverOne(t, bw, us[i], reports[i], d.ues[k]);
  }

  /** The groups granted to two UEs are disjoint and were not reserved. */
  lemma {:induction false} GrantsDisjoint(t: TbsTable, bw: Bandwidth, vrb: RbgMap, us: seq<UeState>,
                                          reports: seq<UeReport>, order: seq<nat>, vrb': RbgMap, mid: seq<UeState>,
                                          i: nat, j: nat)
    requires |us| == |reports| && (forall i | 0 <= i < |reports| :: ReportOk(reports[i])) && RecordsFit(bw, us)
    requires Preprocessed(t, bw, vrb, us, reports, order, vrb', mid) && i < |us| && j < |us| && i != j
    ensures DisjointMaps(mid[i].alloc.rbgs, mid[j].alloc.rbgs)
    ensures DisjointMaps(mid[i].alloc.rbgs, vrb)
  {
    var served := ChosenAll(Permuted(order, OpenedAll(t, bw, us, reports)));
    var active, c := ActiveCount(served, |served|), OpeningCell(bw, vrb, served);
    OpeningHolds(t, bw, vrb, us, reports, order);
    var d := Allocate(bw, active, c);
    var k, l := PlaceOf(order, i), PlaceOf(order, j);
    assert Permuted(order, mid)[k] == Updated(served, d.ues)[k] && Permuted(order, mid)[l] == Updated(served, d.ues)[l];
    assert mid[i].alloc.rbgs == d.ues[k].rbgs && mid[j].alloc.rbgs == d.ues[l].rbgs;
    UeOutcome(bw, vrb, active, c, k);
    TwoUesOutcome(bw, vrb, active, c, k, l);
  }

  lemma {:induction false} HandOver(t: TbsTable, bw: Bandwidth, vrb: RbgMap, us: seq<UeState>, reports: seq<UeReport>,
                                    order: seq<nat>, vrb': RbgMap, mid: seq<UeState>)
    requires |us| == |reports| && (forall i | 0 <= i < |reports| :: ReportOk(reports[i])) && RecordsFit(bw, us)
    requires Preprocessed(t, bw, vrb, us, reports, order, vrb', mid)
    ensures forall i | 0 <= i < |us| :: HandedOver(bw, us[i], mid[i])
  {
    forall i | 0 <= i < |us|
      ensures HandedOver(bw, us[i], mid[i])
    {
      var k := PlaceOf(order, i);
      HandOverInOrder(t, bw, vrb, us, reports, order, vrb', mid, k);
    }
  }

  // ---------- a round ----------

  /** What happened inside a round: serving order, final map, hand-over, and the MCS variable before each UE. */
  datatype Inside = Inside(order: seq<nat>, vrb: RbgMap, mid: seq<UeState>, mcs: seq<nat>)

  /** A whole round: the preprocessor on the empty map, then each UE in configuration order. */
  ghost predicate RoundStep(t: TbsTable, bw: Bandwidth, us: seq<UeState>, inps: seq<UeInput>, x: Inside,
                            us': seq<UeState>, sents: seq<Option<Sent>>)
    requires InputsOk(us, inps) && RecordsFit(bw, us)
  {
    && Preprocessed(t, bw, EmptyMap(), us, Reports(inps), x.order, x.vrb, x.mid)
    && |x.mid| == |us'| == |sents| == |us| && |x.mcs| == |us| + 1
    && (forall i | 0 <= i < |x.mcs| :: x.mcs[i] <= MAX_MCS)
    && forall i | 0 <= i < |us| ::
      && StateFits(bw, x.mid[i])
      && SendStep(t, bw, x.mid[i], inps[i], x.mcs[i], us'[i], sents[i], x.mcs[i + 1])
  }

  /** A transmission's bitmap holds exactly the shortest prefix of its UE's granted groups. */
  lemma {:induction false} SentWithinGrant(t: TbsTable, bw: Bandwidth, u: UeState, inp: UeInput, mcs0: nat, u': UeState,
                                           sent: Option<Sent>, mcs: nat)
    requires StateFits(bw, u) && ReportOk(inp.report) && mcs0 <= MAX_MCS
    requires SendStep(t, bw, u, inp, mcs0, u', sent, mcs) && sent.Some?
    ensures IsBitmapOf(sent.value.dci.rbBitmap, bw, u.alloc.rbgs, sent.value.nbRb)
  {
  }

  lemma {:induction false} BitmapsOfDisjointMaps(bw: Bandwidth, a: nat, m: RbgMap, na: nat, b: nat, m': RbgMap, nb: nat)
    requires IsBitmapOf(a, bw, m, na) && IsBitmapOf(b, bw, m', nb) && DisjointMaps(m, m')
    ensures BitAnd(a, b) == 0
  {
    var n := NbRbg(bw);
    BoundedBits(a, n);
    forall k: nat
      ensures !(Bit(a, k) && Bit(b, k))
    {
      if k < n {
        var c := n - 1 - k;
        assert n - 1 - c == k;
        assert Bit(a, n - 1 - c) <==> InShortestPrefix(bw, m, na, c);
        assert Bit(b, n - 1 - c) <==> InShortestPrefix(bw, m', nb, c);
      }
    }
    AndZeroIffNoCommonBit(a, b);
  }

  /** End to end: in any round, whatever the UEs' demands, priorities and feedback, the resource block
      bitmaps sent to two UEs of a cell have no bit in common. */
  lemma {:induction false} BitmapsAreExclusive(t: TbsTable, bw: Bandwidth, us: seq<UeState>, inps: seq<UeInput>,
                                               x: Inside, us': seq<UeState>, sents: seq<Option<Sent>>, i: nat, j: nat)
    requires InputsOk(us, inps) && RecordsFit(bw, us) && RoundStep(t, bw, us, inps, x, us', sents)
    requires i < |us| && j < |us| && i != j && sents[i].Some? && sents[j].Some?
    ensures BitAnd(sents[i].value.dci.rbBitmap, sents[j].value.dci.rbBitmap) == 0
  {
    GrantsDisjoint(t, bw, EmptyMap(), us, Reports(inps), x.order, x.vrb, x.mid, i, j);
    SentWithinGrant(t, bw, x.mid[i], inps[i], x.mcs[i], us'[i], sents[i], x.mcs[i + 1]);
    SentWithinGrant(t, bw, x.mid[j], inps[j], x.mcs[j], us'[j], sents[j], x.mcs[j + 1]);
    BitmapsOfDisjointMaps(bw, sents[i].value.dci.rbBitmap, x.mid[i].alloc.rbgs, sents[i].value.nbRb,
                          sents[j].value.dci.rbBitmap, x.mid[j].alloc.rbgs, sents[j].value.nbRb);
  }

  // ---------- the round on the shared objects ----------

  ghost function ActiveMaps(macs: seq<UeMacRibInfo>): set<array<bool>> {
    set i | 0 <= i < |macs| :: macs[i].activeHarq
  }

  /** The second half for the UE at `j`; the others keep their state. */
  method ScheduleUeAt(t: TbsTable, bw: Bandwidth, vrb: array<bool>, ues: seq<UeSchedulingInfo>, macs: seq<UeMacRibInfo>,
                      j: nat, ue: UeSchedulingInfo, mac: UeMacRibInfo, inp: UeInput, mcs0: nat, ghost now: seq<UeState>)
    returns (sent: Option<Sent>, mcs: nat, ghost u': UeState)
    requires World(vrb, ues, macs) && Mirrors(ues, macs, now) && j < |ues| && ue == ues[j] && mac == macs[j]
    requires NothingSentIn(ues, j, |ues|) && StateFits(bw, now[j]) && ReportOk(inp.report) && mcs0 <= MAX_MCS
    modifies ue.rballocSubScheduled, mac.activeHarq, ue`nbScheduledRbs, ue`mcs, ue`ndi
    ensures SendStep(t, bw, now[j], inp, mcs0, u', sent, mcs) && mcs <= MAX_MCS
    ensures Mirrors(ues, macs, now[j := u']) && NothingSentIn(ues, j + 1, |ues|)
  {
    sent, mcs, u' := ScheduleUe(t, bw, ue, mac, inp, mcs0, now[j]);
    forall m | m in ue.rballocSubScheduled
      ensures m in ue.Maps()
    {
    }
    forall l | 0 <= l < |ues| && l != j
      ensures Holds(ues[l], macs[l], now[l])
    {
      assert ues[l] != ues[j] && ues[l].rballocSub in ues[l].Maps();
      assert macs[l].activeHarq != mac.activeHarq;
    }
    forall l | j < l < |ues|
      ensures ues[l].NothingSent()
    {
      forall p | 0 <= p < MAX_NUM_HARQ
        ensures ues[l].rballocSubScheduled[p] !in ue.Maps() && ues[l].rballocSubScheduled[p] != mac.activeHarq
      {
        assert ues[l].rballocSubScheduled[p] in ues[l].Maps();
      }
    }
  }

  /** How far the second half has come after `j` UEs. */
  datatype Progressed = Progressed(us: seq<UeState>, sents: seq<Option<Sent>>, mcs: seq<nat>)

  ghost predicate Halfway(t: TbsTable, bw: Bandwidth, mid: seq<UeState>, inps: seq<UeInput>, j: nat, p: Progressed)
    requires InputsOk(mid, inps) && j <= |mid| && forall i | 0 <= i < |mid| :: StateFits(bw, mid[i])
  {
    && |p.us| == |mid| && (forall i | j <= i < |mid| :: p.us[i] == mid[i])
    && AllSent(t, bw, mid, inps, j, p.mcs, p.us[..j], p.sents)
  }

  /** The objects and the results after `j` UEs. */
  ghost predicate Serving(t: TbsTable, bw: Bandwidth, ues: seq<UeSchedulingInfo>, macs: seq<UeMacRibInfo>,
                          mid: seq<UeState>, inps: seq<UeInput>, j: nat, p: Progressed, sents: seq<Option<Sent>>,
                          mcs0: nat, mcs: nat)
    requires InputsOk(mid, inps) && j <= |mid| == |ues| && forall i | 0 <= i < |mid| :: StateFits(bw, mid[i])
    requires forall i | 0 <= i < |ues| :: ues[i].Shaped()
    reads ues, GrantMaps(ues), SentMaps(ues)
    reads set i | 0 <= i < |macs| :: macs[i].activeHarq
    reads set i | 0 <= i < |macs| :: macs[i].harqStats
  {
    && Mirrors(ues, macs, p.us) && NothingSentIn(ues, j, |ues|)
    && Halfway(t, bw, mid, inps, j, p) && sents == p.sents && mcs == p.mcs[j] && mcs0 == p.mcs[0]
  }

  /** One pass of the loop of the second half. */
  method ScheduleNext(t: TbsTable, bw: Bandwidth, vrb: array<bool>, ues: seq<UeSchedulingInfo>, macs: seq<UeMacRibInfo>,
                      inps: seq<UeInput>, j: nat, ue: UeSchedulingInfo, mac: UeMacRibInfo, mcs0: nat,
                      ghost mid: seq<UeState>, ghost p: Progressed, sents: seq<Option<Sent>>, ghost first: nat)
    returns (sents': seq<Option<Sent>>, mcs: nat, ghost q: Progressed)
    requires World(vrb, ues, macs) && j < |ues| && ue == ues[j] && mac == macs[j]
    requires |mid| == |ues| && InputsOk(mid, inps) && forall i | 0 <= i < |mid| :: StateFits(bw, mid[i])
    requires Serving(t, bw, ues, macs, mid, inps, j, p, sents, first, mcs0)
    modifies ue.rballocSubScheduled, mac.activeHarq, ue`nbScheduledRbs, ue`mcs, ue`ndi
    ensures Serving(t, bw, ues, macs, mid, inps, j + 1, q, sents', first, mcs)
  {
    ghost var u';
    var sent;
    sent, mcs, u' := ScheduleUeAt(t, bw, vrb, ues, macs, j, ue, mac, inps[j], mcs0, p.us);
    sents' := sents + [sent];
    q := Progressed(p.us[j := u'], p.sents + [sent], p.mcs + [mcs]);
    HalfwayOn(t, bw, mid, inps, j, p, u', sent, mcs);
  }

  lemma {:induction false} HalfwayOn(t: TbsTable, bw: Bandwidth, mid: seq<UeState>, inps: seq<UeInput>, j: nat,
                                     p: Progressed, u': UeState, sent: Option<Sent>, mcs: nat)
    requires InputsOk(mid, inps) && j < |mid| && forall i | 0 <= i < |mid| :: StateFits(bw, mid[i])
    requires Halfway(t, bw, mid, inps, j, p) && mcs <= MAX_MCS
    requires SendStep(t, bw, mid[j], inps[j], p.mcs[j], u', sent, mcs)
    ensures Halfway(t, bw, mid, inps, j + 1, Progressed(p.us[j := u'], p.sents + [sent], p.mcs + [mcs]))
  {
    var us', sents', ms' := p.us[..j] + [u'], p.sents + [sent], p.mcs + [mcs];
    assert p.us[j := u'][..j + 1] == us';
    forall i | 0 <= i < j + 1
      ensures SendStep(t, bw, mid[i], inps[i], ms'[i], us'[i], sents'[i], ms'[i + 1])
    {
      if i < j {
        assert ms'[i] == p.mcs[i] && us'[i] == p.us[..j][i] && sents'[i] == p.sents[i] && ms'[i + 1] == p.mcs[i + 1];
      }
    }
  }

  /** The second half for all UEs, in configuration order. */
  method ScheduleUes(t: TbsTable, bw: Bandwidth, vrb: array<bool>, ues: seq<UeSchedulingInfo>, macs: seq<UeMacRibInfo>,
                     inps: seq<UeInput>, mcs0: nat, ghost mid: seq<UeState>)
    returns (sents: seq<Option<Sent>>, mcs: nat, ghost p: Progressed)
    requires World(vrb, ues, macs) && Mirrors(ues, macs, mid) && NothingSentIn(ues, 0, |ues|)
    requires InputsOk(mid, inps) && mcs0 <= MAX_MCS && forall i | 0 <= i < |mid| :: StateFits(bw, mid[i])
    modifies SentMaps(ues), ActiveMaps(macs), ues`nbScheduledRbs, ues`mcs, ues`ndi
    ensures Serving(t, bw, ues, macs, mid, inps, |mid|, p, sents, mcs0, mcs)
  {
    sents, mcs, p := [], mcs0, Progressed(mid, [], [mcs0]);
    for j := 0 to |ues|
      invariant Serving(t, bw, ues, macs, mid, inps, j, p, sents, mcs0, mcs)
    {
      sents, mcs, p := ScheduleNext(t, bw, vrb, ues, macs, inps, j, ues[j], macs[j], mcs, mid, p, sents, mcs0);
    }
  }

  /** The first `n` UEs had their turn in the second half. */
  ghost predicate AllSent(t: TbsTable, bw: Bandwidth, mid: seq<UeState>, inps: seq<UeInput>, n: nat,
                          ms: seq<nat>, us': seq<UeState>, sents: seq<Option<Sent>>)
    requires InputsOk(mid, inps) && n <= |mid| && forall i | 0 <= i < |mid| :: StateFits(bw, mid[i])
  {
    && |us'| == |sents| == n && |ms| == n + 1
    && (forall i | 0 <= i <= n :: ms[i] <= MAX_MCS)
    && forall i | 0 <= i < n :: SendStep(t, bw, mid[i], inps[i], ms[i], us'[i], sents[i], ms[i + 1])
  }

  lemma {:induction false} RoundMade(t: TbsTable, bw: Bandwidth, us: seq<UeState>, inps: seq<UeInput>, order: seq<nat>,
                                     vrb: RbgMap, mid: seq<UeState>, p: Progressed)
    requires InputsOk(us, inps) && RecordsFit(bw, us) && |mid| == |us|
    requires Preprocessed(t, bw, EmptyMap(), us, Reports(inps), order, vrb, mid)
    requires forall i | 0 <= i < |mid| :: StateFits(bw, mid[i])
    requires Halfway(t, bw, mid, inps, |mid|, p)
    ensures RoundStep(t, bw, us, inps, Inside(order, vrb, mid, p.mcs), p.us, p.sents)
  {
    assert p.us[..|mid|] == p.us;
  }

  lemma {:induction false} HandOverFits(t: TbsTable, bw: Bandwidth, us: seq<UeState>, inps: seq<UeInput>,
                                        order: seq<nat>, vrb: RbgMap, mid: seq<UeState>)
    requires InputsOk(us, inps) && RecordsFit(bw, us)
    requires Preprocessed(t, bw, EmptyMap(), us, Reports(inps), order, vrb, mid)
    ensures |mid| == |us| && forall i | 0 <= i < |mid| :: StateFits(bw, mid[i])
  {
    HandOver(t, bw, EmptyMap(), us, Reports(inps), order, vrb, mid);
  }

  /** One scheduling round of a cell. */
  method RunCell(t: TbsTable, bw: Bandwidth, vrb: array<bool>, ues: seq<UeSchedulingInfo>, macs: seq<UeMacRibInfo>,
                 inps: seq<UeInput>, mcs0: nat, ghost us: seq<UeState>)
    returns (sents: seq<Option<Sent>>, mcs: nat, ghost x: Inside, ghost us': seq<UeState>)
    requires World(vrb, ues, macs) && Mirrors(ues, macs, us)
    requires InputsOk(us, inps) && RecordsFit(bw, us) && mcs0 <= MAX_MCS
    modifies vrb, AllMaps(ues), ActiveMaps(macs), ues
    ensures RoundStep(t, bw, us, inps, x, us', sents) && Mirrors(ues, macs, us')
  {
    forall i | 0 <= i < |ues|
      ensures vrb !in ues[i].Maps() && vrb != macs[i].activeHarq
    {
    }
    ClearMap(vrb, ues, macs, us);
    var order;
    ghost var mid;
    order, mid := RunDlschSchedulerPreprocessor(t, bw, vrb, ues, macs, Reports(inps), us);
    ghost var p;
    ghost var final: RbgMap := vrb[..];
    HandOverFits(t, bw, us, inps, order, final, mid);
    SentMapsAmongAll(ues);
    sents, mcs, p := ScheduleUes(t, bw, vrb, ues, macs, inps, mcs0, mid);
    us' := p.us;
    x := Inside(order, final, mid, p.mcs);
    RoundMade(t, bw, us, inps, order, final, mid, p);
  }

  lemma {:induction false} SentMapsAmongAll(ues: seq<UeSchedulingInfo>)
    ensures SentMaps(ues) <= AllMaps(ues)
  {
    forall i, m | 0 <= i < |ues| && m in ues[i].rballocSubScheduled
      ensures m in ues[i].Maps() && m in AllMaps(ues)
    {
    }
  }

  /** The cell's map at the start of a round, in subframes without common channels. */
  method ClearMap(vrb: array<bool>, ues: seq<UeSchedulingInfo>, macs: seq<UeMacRibInfo>, ghost us: seq<UeState>)
    requires World(vrb, ues, macs) && Mirrors(ues, macs, us)
    modifies vrb
    ensures vrb[..] == EmptyMap() && Mirrors(ues, macs, us)
  {
    forall k | 0 <= k < N_RBG_MAX {
      vrb[k] := false;
    }
    forall i | 0 <= i < |ues|
      ensures Holds(ues[i], macs[i], us[i])
    {
      assert ues[i].rballocSub in ues[i].Maps();
    }
  }
}
