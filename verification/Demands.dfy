/** What a UE asks for in a round and what it is sent, from its report, its HARQ state and its grant. */
module Demands {
  import opened Bits
  import opened Options
  import opened Primitives
  import opened UeScheduling
  import opened Preprocessor
  import opened PreprocessorRun
  import opened Policy
  import opened PolicyRun
  import opened RoundProofs
  import opened ServingOrder

  // ---------- the tables ----------

  /** The 29 MCS share 27 rows of sizes: each has the next row, but 10 shares with 9 and 17 with 16. */
  lemma {:induction false} RowsOfSizes(mcs: nat)
    requires mcs <= MAX_MCS
    ensures mcs == 0 ==> GetITbs(mcs) == 0
    ensures mcs > 0 ==> GetITbs(mcs) == GetITbs(mcs - 1) + (if mcs == 10 || mcs == 17 then 0 else 1)
    ensures mcs == MAX_MCS ==> GetITbs(mcs) == 26
  {
  }

  /** A better channel is given a higher MCS, from the lowest for the two worst to the highest for the best. */
  lemma {:induction false} BetterChannelHigherMcs(a: UeReport, b: UeReport)
    requires ReportOk(a) && ReportOk(b) && a.wbCqi.Some? && b.wbCqi.Some? && a.wbCqi.value < b.wbCqi.value
    ensures WidebandMcs(a) < WidebandMcs(b) || b.wbCqi.value == 1
    ensures a.wbCqi.value <= 1 ==> WidebandMcs(a) == 0
    ensures b.wbCqi.value == 15 ==> WidebandMcs(b) == MAX_MCS
  {
  }

  /** A transport block has the whole bytes of its entry, which is in the row of the MCS and the column of its size. */
  lemma {:induction false} BlockSize(t: TbsTable, mcs: nat, nbRb: nat)
    requires mcs <= MAX_MCS && 0 < nbRb <= 110
    ensures 8 * TbsDl(t, mcs, nbRb) <= t[GetITbs(mcs)][nbRb - 1] < 8 * TbsDl(t, mcs, nbRb) + 8
  {
  }

  // ---------- demand and priority ----------

  /** Sizes start at four blocks for the lowest MCS, and at one group for any other. */
  function SmallestSize(bw: Bandwidth, mcs: nat): nat {
    if mcs == 0 then 4 else MinRbUnit(bw)
  }

  /** The least size in steps of a group whose transport block holds the bytes, or the limit if none does. */
  ghost predicate IsLeastSize(t: TbsTable, bw: Bandwidth, mcs: nat, bytes: nat, limit: nat, nb: nat)
    requires limit <= 110 && nb <= 110
  {
    var start := SmallestSize(bw, mcs);
    && (forall k: nat | k < nb && k <= limit && OnGrid(k, MinRbUnit(bw), start) :: TbsDl(t, mcs, k) < bytes)
    && ((OnGrid(nb, MinRbUnit(bw), start) && TbsDl(t, mcs, nb) >= bytes && (nb <= limit || nb == start))
        || (nb == limit
            && forall k: nat | k <= limit && OnGrid(k, MinRbUnit(bw), start) :: TbsDl(t, mcs, k) < bytes))
  }

  /** The MCS that the report stands for, the lowest without one. */
  function ReportedMcs(r: UeReport): nat
    requires ReportOk(r)
  {
    if r.wbCqi.Some? then CQI_TO_MCS[r.wbCqi.value] else 0
  }

  /**
   * A UE demands the blocks on record if its lowest free process is not acknowledged; else nothing if it has nothing
   * queued or no logical channels are known of it; else the least size that holds its queues.
   */
  lemma {:induction false} DemandIs(t: TbsTable, bw: Bandwidth, vrb: RbgMap, us: seq<UeState>, reports: seq<UeReport>,
                                    order: seq<nat>, vrb': RbgMap, mid: seq<UeState>, i: nat)
    requires |us| == |reports| && (forall i | 0 <= i < |reports| :: ReportOk(reports[i])) && RecordsFit(bw, us)
    requires Preprocessed(t, bw, vrb, us, reports, order, vrb', mid) && i < |us|
    ensures mid[i].alloc.required <= bw
    ensures var u, r, d := us[i], reports[i], mid[i].alloc.required;
      if exists p: nat :: IsLowestFree(u.harq, p) && u.harq.stats[p] > 0 then
        forall p: nat | IsLowestFree(u.harq, p) :: d == u.tx.nbScheduled[p]
      else if r.lcConfigs.None? || Sum(Queues(r.rlc)) == 0 then d == 0
      else IsLeastSize(t, bw, ReportedMcs(r), Sum(Queues(r.rlc)), bw, d)
  {
    var k := PlaceOf(order, i);
    DemandOf(t, bw, vrb, us, reports, order, vrb', mid, k);
    var u, r := us[i], reports[i];
    BytesAreSums(r.rlc);
    var p := NextHarq(u.harq, 0);
    assert p != -1 ==> IsLowestFree(u.harq, p);
    if !(p != -1 && u.harq.stats[p] > 0) {
      assert !exists p: nat :: IsLowestFree(u.harq, p) && u.harq.stats[p] > 0;
      SizedIs(t, bw, u, r);
    }
  }

  lemma {:induction false} SizedIs(t: TbsTable, bw: Bandwidth, u: UeState, r: UeReport)
    requires ReportOk(r)
    ensures var d := Opened(t, bw, u, r).alloc.required;
      d <= bw &&
      if r.lcConfigs.None? || QueuedBytes(r.rlc) == 0 then d == 0
      else IsLeastSize(t, bw, ReportedMcs(r), QueuedBytes(r.rlc), bw, d)
  {
    SizedFits(t, bw, u, r);
    var mcs := WidebandMcs(r);
    GridSearchIsLeast(t, mcs, MinRbUnit(bw), bw, QueuedBytes(r.rlc), StartRbs(bw, mcs));
  }

  /** Demand and priority are settled before any group is granted. */
  lemma {:induction false} DemandOf(t: TbsTable, bw: Bandwidth, vrb: RbgMap, us: seq<UeState>, reports: seq<UeReport>,
                                    order: seq<nat>, vrb': RbgMap, mid: seq<UeState>, k: nat)
    requires |us| == |reports| && (forall i | 0 <= i < |reports| :: ReportOk(reports[i])) && RecordsFit(bw, us)
    requires Preprocessed(t, bw, vrb, us, reports, order, vrb', mid) && k < |order|
    ensures var i := order[k];
      var a := Chosen(Opened(t, bw, us[i], reports[i])).alloc;
      mid[i].alloc.required == a.required <= bw && mid[i].alloc.high == a.high
  {
    var served := ChosenAll(Permuted(order, OpenedAll(t, bw, us, reports)));
    var active, c := ActiveCount(served, |served|), OpeningCell(bw, vrb, served);
    OpeningHolds(t, bw, vrb, us, reports, order);
    OneServed(bw, vrb, active, order, mid, served, c, k);
    assert served[k] == Chosen(Opened(t, bw, us[order[k]], reports[order[k]]));
    ChosenFits(t, bw, us[order[k]], reports[order[k]]);
  }

  /**
   * A UE has high priority if at most two logical channels are configured for it; without a report of its channels
   * or their configuration it keeps the priority it had.
   */
  lemma {:induction false} PriorityIs(t: TbsTable, bw: Bandwidth, vrb: RbgMap, us: seq<UeState>,
                                      reports: seq<UeReport>, order: seq<nat>, vrb': RbgMap, mid: seq<UeState>, i: nat)
    requires |us| == |reports| && (forall i | 0 <= i < |reports| :: ReportOk(reports[i])) && RecordsFit(bw, us)
    requires Preprocessed(t, bw, vrb, us, reports, order, vrb', mid) && i < |us|
    ensures mid[i].alloc.high <==>
      if reports[i].rlc == [] || reports[i].lcConfigs.None? then us[i].alloc.high else reports[i].lcConfigs.value <= 2
  {
    DemandOf(t, bw, vrb, us, reports, order, vrb', mid, PlaceOf(order, i));
  }

  // ---------- what is sent ----------

  /**
   * New data goes out exactly if control information fits, something is granted and there is something to carry; on
   * the lowest free process, and if none is free nothing is sent.
   */
  lemma {:induction false} NewDataIsSentExactlyWhen(t: TbsTable, bw: Bandwidth, us: seq<UeState>, inps: seq<UeInput>,
                                                    x: Inside, us': seq<UeState>, sents: seq<Option<Sent>>, i: nat)
    requires InputsOk(us, inps) && RecordsFit(bw, us) && RoundStep(t, bw, us, inps, x, us', sents) && i < |us|
    ensures NoneFree(us[i].harq) ==> sents[i].None?
    ensures forall p: nat | IsLowestFree(us[i].harq, p) && us[i].harq.stats[p] == 0 ::
      && (sents[i].Some? <==> inps[i].cceFeasible && x.mid[i].alloc.available > 0 && inps[i].payload.Some?)
      && (sents[i].Some? ==> sents[i].value.isNew && sents[i].value.dci.harqPid == p)
  {
    HandOver(t, bw, EmptyMap(), us, Reports(inps), x.order, x.vrb, x.mid);
    assert HandedOver(bw, us[i], x.mid[i]);
    assert SendStep(t, bw, x.mid[i], inps[i], x.mcs[i], us'[i], sents[i], x.mcs[i + 1]);
    var next := NextHarq(us[i].harq, 0);
    assert next != -1 ==> IsLowestFree(us[i].harq, next);
  }

  /**
   * New data is sized from the MCS that the UE reported, or if it reported none from the one that the scheduler used
   * last: the least size within the grant that holds what is to be carried at that MCS. At the MCS sent the block
   * holds it, unless that is the highest.
   */
  lemma {:induction false} NewDataIsSized(t: TbsTable, bw: Bandwidth, us: seq<UeState>, inps: seq<UeInput>, x: Inside,
                                          us': seq<UeState>, sents: seq<Option<Sent>>, i: nat)
    requires InputsOk(us, inps) && RecordsFit(bw, us) && RoundStep(t, bw, us, inps, x, us', sents) && i < |us|
    requires sents[i].Some? && sents[i].value.isNew
    ensures x.mid[i].alloc.available <= bw && sents[i].value.nbRb <= 110 && inps[i].payload.Some?
    ensures var m := if inps[i].report.wbCqi.Some? then ReportedMcs(inps[i].report) else x.mcs[i];
      IsLeastSize(t, bw, m, inps[i].payload.value, x.mid[i].alloc.available, sents[i].value.nbRb)
    ensures var s := sents[i].value;
      && s.dci.tbsSize == TbsDl(t, s.dci.mcs, s.nbRb) && x.mcs[i + 1] == s.dci.mcs
      && (s.dci.tbsSize >= inps[i].payload.value || s.dci.mcs == MAX_MCS)
  {
    var u, inp, mcs0 := x.mid[i], inps[i], x.mcs[i];
    HandOver(t, bw, EmptyMap(), us, Reports(inps), x.order, x.vrb, x.mid);
    NewDataSize(t, bw, u, inp, mcs0, us'[i], sents[i], x.mcs[i + 1]);
  }

  lemma {:induction false} NewDataSize(t: TbsTable, bw: Bandwidth, u: UeState, inp: UeInput, mcs0: nat, u': UeState,
                                       sent: Option<Sent>, mcs: nat)
    requires StateFits(bw, u) && ReportOk(inp.report) && mcs0 <= MAX_MCS
    requires SendStep(t, bw, u, inp, mcs0, u', sent, mcs) && sent.Some? && sent.value.isNew
    ensures sent.value.nbRb <= 110 && inp.payload.Some?
    ensures var m := if inp.report.wbCqi.Some? then ReportedMcs(inp.report) else mcs0;
      IsLeastSize(t, bw, m, inp.payload.value, u.alloc.available, sent.value.nbRb)
    ensures var s := sent.value;
      && s.dci.tbsSize == TbsDl(t, s.dci.mcs, s.nbRb) && mcs == s.dci.mcs
      && (s.dci.tbsSize >= inp.payload.value || s.dci.mcs == MAX_MCS)
  {
    var m := InputMcs(inp, mcs0);
    GridSearchIsLeast(t, m, MinRbUnit(bw), u.alloc.available, inp.payload.value, StartRbs(bw, m));
    GridSearchBound(t, m, MinRbUnit(bw), u.alloc.available, inp.payload.value, StartRbs(bw, m));
    McsIsTight(t, sent.value.nbRb, inp.payload.value, m);
  }

  /** The MCS variable goes on with what was sent or waits to be sent again, and otherwise with what was reported. */
  lemma {:induction false} McsGoesOn(t: TbsTable, bw: Bandwidth, us: seq<UeState>, inps: seq<UeInput>, x: Inside,
                                     us': seq<UeState>, sents: seq<Option<Sent>>, i: nat)
    requires InputsOk(us, inps) && RecordsFit(bw, us) && RoundStep(t, bw, us, inps, x, us', sents) && i < |us|
    ensures sents[i].Some? ==> x.mcs[i + 1] == sents[i].value.dci.mcs
    ensures NoneFree(us[i].harq) || !inps[i].cceFeasible || x.mid[i].alloc.available == 0 ==> x.mcs[i + 1] == x.mcs[i]
    ensures inps[i].cceFeasible && x.mid[i].alloc.available > 0 && sents[i].None? ==>
      forall p: nat | IsLowestFree(us[i].harq, p) ::
        x.mcs[i + 1] == (
          if us[i].harq.stats[p] > 0 then us[i].tx.mcs[p]
          else if inps[i].report.wbCqi.Some? then ReportedMcs(inps[i].report)
          else x.mcs[i])
  {
    HandOver(t, bw, EmptyMap(), us, Reports(inps), x.order, x.vrb, x.mid);
    assert HandedOver(bw, us[i], x.mid[i]);
    assert SendStep(t, bw, x.mid[i], inps[i], x.mcs[i], us'[i], sents[i], x.mcs[i + 1]);
    var next := NextHarq(us[i].harq, 0);
    assert next != -1 ==> IsLowestFree(us[i].harq, next);
  }

  // ---------- the bitmap as a number ----------

  /** The first `n` groups as binary digits, the first of them highest; a group counts while blocks are missing. */
  function Digits(bw: Bandwidth, m: RbgMap, nbRb: nat, n: nat): nat
    requires n <= NbRbg(bw)
  {
    if n == 0 then 0 else 2 * Digits(bw, m, nbRb, n - 1) + (if m[n - 1] && SizeOf(bw, m, n - 1) < nbRb then 1 else 0)
  }

  lemma {:induction false} DigitBits(bw: Bandwidth, m: RbgMap, nbRb: nat, n: nat, k: nat)
    requires n <= NbRbg(bw)
    ensures Bit(Digits(bw, m, nbRb, n), k) <==> k < n && InShortestPrefix(bw, m, nbRb, n - 1 - k)
  {
    ZeroBits(k);
    if n == 0 || k == 0 {
    } else {
      DigitBits(bw, m, nbRb, n - 1, k - 1);
    }
  }

  lemma {:induction false} BitmapIs(bw: Bandwidth, m: RbgMap, nbRb: nat, bitmap: nat, n: nat)
    requires IsBitmapOf(bitmap, bw, m, nbRb) && n == NbRbg(bw)
    ensures bitmap == Digits(bw, m, nbRb, n)
  {
    BoundedBits(bitmap, n);
    forall k: nat
      ensures Bit(bitmap, k) <==> Bit(Digits(bw, m, nbRb, n), k)
    {
      DigitBits(bw, m, nbRb, n, k);
      if k < n {
        assert n - 1 - (n - 1 - k) == k;
      }
    }
    SameBits(bitmap, Digits(bw, m, nbRb, n));
  }

  /** In every round, the bitmap sent is the number whose digits are the granted groups, as far as they are needed. */
  lemma {:induction false} BitmapIsNumber(t: TbsTable, bw: Bandwidth, us: seq<UeState>, inps: seq<UeInput>, x: Inside,
                                          us': seq<UeState>, sents: seq<Option<Sent>>, i: nat)
    requires InputsOk(us, inps) && RecordsFit(bw, us) && RoundStep(t, bw, us, inps, x, us', sents) && i < |us|
    requires sents[i].Some?
    ensures sents[i].value.dci.rbBitmap == Digits(bw, x.mid[i].alloc.rbgs, sents[i].value.nbRb, NbRbg(bw))
  {
    SentWithinGrant(t, bw, x.mid[i], inps[i], x.mcs[i], us'[i], sents[i], x.mcs[i + 1]);
    BitmapIs(bw, x.mid[i].alloc.rbgs, sents[i].value.nbRb, sents[i].value.dci.rbBitmap, NbRbg(bw));
  }
}
