/** Turning one UE's grant into a transmission (second half of `run_central_scheduler`,
    src/app/enb_scheduler_policy.cc). */
module Policy {
  import opened Options
  import opened Primitives
  import opened UeScheduling
  import opened Preprocessor
  import opened PreprocessorRun

  /** What the second half reads of a UE besides its state. `payload` is the number of bytes to carry
      (data, headers, control elements), if any data was requested. */
  datatype UeInput = UeInput(report: UeReport, cceFeasible: bool, payload: Option<nat>)

  /** The downlink control information sent to a UE. */
  datatype Dci = Dci(harqPid: nat, ndi: nat, rv: nat, mcs: nat, tbsSize: nat, rbBitmap: nat)

  /** A transmission, with the number of resource blocks its transport block is sized for. */
  datatype Sent = Sent(dci: Dci, nbRb: nat, isNew: bool)

  // ---------- the subband fill ----------

  /** The groups below some group up to `k` have exactly the blocks needed. */
  ghost predicate Spent(bw: Bandwidth, granted: RbgMap, nbRb: nat, k: nat)
    requires k < NbRbg(bw)
  {
    exists c: nat :: c <= k && SizeOf(bw, granted, c) == nbRb
  }

  /** Which granted groups the fill marks: all of them if the blocks match exactly, else those before the
      blocks run out; the 16-bit counter runs out only if it hits zero exactly. */
  ghost predicate IsFilled(bw: Bandwidth, granted: RbgMap, nbRb: nat, available: nat, j: nat) {
    && j < NbRbg(bw) && granted[j]
    && (nbRb == available || !Spent(bw, granted, nbRb, j))
  }

  lemma {:induction false} U16Wrap(x: int)
    requires -0x1_0000 <= x < 0x1_0000
    ensures U16(x) == if x < 0 then x + 0x1_0000 else x
  {
  }

  /** The counter is zero exactly when the marked blocks are the blocks needed; it is never short by much. */
  lemma {:induction false} CounterFacts(bw: Bandwidth, granted: RbgMap, nbRb: nat, j: nat, d: nat)
    requires j <= NbRbg(bw) && nbRb <= 110 && d <= 4
    ensures
      var left := nbRb - SizeOf(bw, granted, j);
      (U16(left) > 0 <==> left != 0) && (left != 0 ==> U16(U16(left) - d) == U16(left - d))
  {
    SizeOfMonotone(bw, granted, j, NbRbg(bw));
    GroupsFillTheCell(bw, granted);
    var left := nbRb - SizeOf(bw, granted, j);
    U16Wrap(left);
    U16Wrap(U16(left) - d);
    U16Wrap(left - d);
  }

  /** Marks granted groups, lowest first, until the 16-bit block counter is zero. */
  method FillUntilSpent(bw: Bandwidth, rballoc: array<bool>, row: array<bool>, nbRb: nat)
    requires rballoc.Length == row.Length == N_RBG_MAX && rballoc != row && nbRb <= 110
    requires forall k | 0 <= k < N_RBG_MAX :: !row[k]
    modifies row
    ensures forall k | 0 <= k < N_RBG_MAX ::
              row[k] <==> k < NbRbg(bw) && rballoc[k] && !Spent(bw, rballoc[..], nbRb, k)
  {
    ghost var granted: RbgMap := rballoc[..];
    var left, j := nbRb, 0;
    while left > 0 && j < NbRbg(bw)
      invariant 0 <= j <= NbRbg(bw)
      invariant left == U16(nbRb - SizeOf(bw, granted, j))
      invariant forall c: nat | c < j :: SizeOf(bw, granted, c) != nbRb
      invariant forall k | 0 <= k < N_RBG_MAX :: row[k] <==> k < j && granted[k]
      decreases NbRbg(bw) - j
    {
      CounterFacts(bw, granted, nbRb, j, RbgSize(bw, j));
      if rballoc[j] {
        row[j] := true;
        left := U16(left - RbgSize(bw, j));
      }
      j := j + 1;
    }
    CounterFacts(bw, granted, nbRb, j, 0);
    assert rballoc[..] == granted;
    forall k: nat | j <= k < NbRbg(bw)
      ensures Spent(bw, granted, nbRb, k)
    {
      assert SizeOf(bw, granted, j) == nbRb;
    }
  }

  method FillSubbands(bw: Bandwidth, ue: UeSchedulingInfo, row: array<bool>, nbRb: nat)
    requires ue.Shaped() && row in ue.rballocSubScheduled && nbRb <= 110
    requires forall k | 0 <= k < N_RBG_MAX :: !row[k]
    modifies row
    ensures forall k: nat | k < N_RBG_MAX ::
              row[k] <==> IsFilled(bw, ue.rballocSub[..], nbRb, ue.preNbRbsAvailable, k)
  {
    if nbRb == ue.preNbRbsAvailable {
      for j := 0 to NbRbg(bw)
        invariant forall k | 0 <= k < N_RBG_MAX :: row[k] <==> k < j && ue.rballocSub[k]
      {
        row[j] := ue.rballocSub[j];
      }
    } else {
      FillUntilSpent(bw, ue.rballocSub, row, nbRb);
    }
  }

  /** Whatever the counter does, the shortest prefix of the marked groups that reaches the blocks needed
      is the shortest such prefix of the granted groups. */
  lemma {:induction false} FillKeepsPrefix(bw: Bandwidth, granted: RbgMap, row: RbgMap, nbRb: nat, available: nat,
                                           c: nat)
    requires forall k: nat | k < N_RBG_MAX :: row[k] <==> IsFilled(bw, granted, nbRb, available, k)
    requires c < NbRbg(bw)
    ensures InShortestPrefix(bw, row, nbRb, c) <==> InShortestPrefix(bw, granted, nbRb, c)
  {
    if nbRb != available && Spent(bw, granted, nbRb, c) {
      var d: nat :| d <= c && SizeOf(bw, granted, d) == nbRb;
      SizeOfMonotone(bw, granted, d, c);
    } else {
      SizeOfSame(bw, row, granted, c);
    }
  }

  // ---------- the MCS search ----------

  /** Lowers the MCS while the block is too large. */
  function McsDown(t: TbsTable, nbRb: nat, need: nat, mcs: nat): (m: nat)
    requires nbRb <= 110
    ensures m <= mcs
  {
    if TbsDl(t, mcs, nbRb) > need && mcs > 0 then McsDown(t, nbRb, need, mcs - 1) else mcs
  }

  /** Raises the MCS while the block is too small. */
  function McsUp(t: TbsTable, nbRb: nat, need: nat, mcs: nat): (m: nat)
    requires nbRb <= 110 && mcs <= MAX_MCS
    ensures mcs <= m <= MAX_MCS
    decreases MAX_MCS - mcs
  {
    if TbsDl(t, mcs, nbRb) < need && mcs < MAX_MCS then McsUp(t, nbRb, need, mcs + 1) else mcs
  }

  function McsFor(t: TbsTable, nbRb: nat, need: nat, mcs: nat): (m: nat)
    requires nbRb <= 110 && mcs <= MAX_MCS
    ensures m <= MAX_MCS
  {
    McsUp(t, nbRb, need, McsDown(t, nbRb, need, mcs))
  }

  method SearchMcs(t: TbsTable, nbRb: nat, need: nat, mcs0: nat) returns (mcs: nat, tbs: nat)
    requires nbRb <= 110 && mcs0 <= MAX_MCS
    ensures mcs == McsFor(t, nbRb, need, mcs0) && tbs == TbsDl(t, mcs, nbRb)
  {
    mcs := mcs0;
    tbs := TbsDl(t, mcs, nbRb);
    while tbs > need && mcs > 0
      invariant mcs <= mcs0 && tbs == TbsDl(t, mcs, nbRb)
      invariant McsDown(t, nbRb, need, mcs0) == McsDown(t, nbRb, need, mcs)
      decreases mcs
    {
      mcs := mcs - 1;
      tbs := TbsDl(t, mcs, nbRb);
    }
    while tbs < need && mcs < MAX_MCS
      invariant mcs <= MAX_MCS && tbs == TbsDl(t, mcs, nbRb)
      invariant McsFor(t, nbRb, need, mcs0) == McsUp(t, nbRb, need, mcs)
      decreases MAX_MCS - mcs
    {
      mcs := mcs + 1;
      tbs := TbsDl(t, mcs, nbRb);
    }
  }

  lemma {:induction false} McsDownFacts(t: TbsTable, nbRb: nat, need: nat, mcs: nat)
    requires nbRb <= 110
    ensures var m := McsDown(t, nbRb, need, mcs); m == 0 || TbsDl(t, m, nbRb) <= need
    ensures forall l: nat | McsDown(t, nbRb, need, mcs) < l <= mcs :: TbsDl(t, l, nbRb) > need
  {
    if TbsDl(t, mcs, nbRb) <= need || mcs == 0 {
    } else {
      McsDownFacts(t, nbRb, need, mcs - 1);
    }
  }

  lemma {:induction false} McsUpFacts(t: TbsTable, nbRb: nat, need: nat, mcs: nat)
    requires nbRb <= 110 && mcs <= MAX_MCS
    ensures var m := McsUp(t, nbRb, need, mcs); m == MAX_MCS || TbsDl(t, m, nbRb) >= need
    ensures forall l: nat | mcs <= l < McsUp(t, nbRb, need, mcs) :: TbsDl(t, l, nbRb) < need
    decreases MAX_MCS - mcs
  {
    if TbsDl(t, mcs, nbRb) >= need || mcs == MAX_MCS {
    } else {
      McsUpFacts(t, nbRb, need, mcs + 1);
    }
  }

  /** For any table: the chosen MCS holds the data or is the highest; and if it holds more than the data,
      it is the lowest, or the next lower one does not hold it. */
  lemma {:induction false} McsIsTight(t: TbsTable, nbRb: nat, need: nat, mcs0: nat)
    requires nbRb <= 110 && mcs0 <= MAX_MCS
    ensures
      var m := McsFor(t, nbRb, need, mcs0);
      && (TbsDl(t, m, nbRb) >= need || m == MAX_MCS)
      && (TbsDl(t, m, nbRb) > need ==> m == 0 || TbsDl(t, m - 1, nbRb) < need)
  {
    McsDownFacts(t, nbRb, need, mcs0);
    McsUpFacts(t, nbRb, need, McsDown(t, nbRb, need, mcs0));
  }

  /** For a column of the table that grows with the MCS, the choice is the least MCS that holds the data. */
  lemma {:induction false} McsIsLeastIfMonotone(t: TbsTable, nbRb: nat, need: nat, mcs0: nat, l: nat)
    requires nbRb <= 110 && mcs0 <= MAX_MCS && l <= MAX_MCS && TbsDl(t, l, nbRb) >= need
    requires forall i: nat, j: nat | i <= j <= MAX_MCS :: TbsDl(t, i, nbRb) <= TbsDl(t, j, nbRb)
    ensures
      var m := McsFor(t, nbRb, need, mcs0);
      TbsDl(t, m, nbRb) >= need && (m <= l || TbsDl(t, m, nbRb) == need)
  {
    var d := McsDown(t, nbRb, need, mcs0);
    McsDownFacts(t, nbRb, need, mcs0);
    McsUpFacts(t, nbRb, need, d);
  }

  // ---------- one UE ----------

  /** Records that fit the cell. */
  predicate TxFits(bw: Bandwidth, tx: Tx) {
    forall p | 0 <= p < MAX_NUM_HARQ :: tx.nbScheduled[p] <= bw && tx.mcs[p] <= MAX_MCS && tx.ndi[p] <= 1
  }

  predicate StateFits(bw: Bandwidth, u: UeState) {
    TxFits(bw, u.tx) && u.alloc.required <= bw && u.alloc.available <= bw
  }

  function InputMcs(inp: UeInput, mcs0: nat): nat
    requires ReportOk(inp.report)
  {
    if inp.report.wbCqi.Some? then WidebandMcs(inp.report) else mcs0
  }

  /** The process is in use until its feedback arrives. */
  function InFlight(u: UeState, p: nat): UeState
    requires p < MAX_NUM_HARQ
  {
    u.(harq := HarqTable(u.harq.active[p := false], u.harq.stats))
  }

  ghost predicate IsDciFor(bw: Bandwidth, u: UeState, s: Sent, p: nat, ndi: nat, mcs: nat, tbs: nat, nbRb: nat,
                           isNew: bool)
    requires p < MAX_NUM_HARQ
  {
    && s.dci.harqPid == p && s.dci.ndi == ndi && s.dci.rv == u.harq.stats[p] % 4
    && s.dci.mcs == mcs && s.dci.tbsSize == tbs && s.nbRb == nbRb && s.isNew == isNew
    && IsBitmapOf(s.dci.rbBitmap, bw, u.alloc.rbgs, nbRb)
  }

  /** The UE after new data on `nbRb` blocks: the process is in use, its record replaced, its indicator toggled. */
  function AfterNewData(u: UeState, p: nat, nbRb: nat, mcs: nat): UeState
    requires p < MAX_NUM_HARQ && u.tx.ndi[p] <= 1
  {
    InFlight(u, p).(tx := TxTable(u.tx.nbScheduled[p := nbRb], u.tx.mcs[p := mcs], u.tx.ndi[p := 1 - u.tx.ndi[p]]))
  }

  /** New data of `need` bytes on process `p`, from the MCS `m`. */
  ghost predicate NewDataStep(t: TbsTable, bw: Bandwidth, u: UeState, p: nat, m: nat, need: nat,
                              u': UeState, s: Sent, mcs: nat)
    requires StateFits(bw, u) && p < MAX_NUM_HARQ && m <= MAX_MCS
  {
    GridSearchBound(t, m, MinRbUnit(bw), u.alloc.available, need, StartRbs(bw, m));
    var nbRb := GridSearch(t, m, MinRbUnit(bw), u.alloc.available, need, StartRbs(bw, m));
    && mcs == McsFor(t, nbRb, need, m) && u' == AfterNewData(u, p, nbRb, mcs)
    && IsDciFor(bw, u, s, p, 1 - u.tx.ndi[p], mcs, TbsDl(t, mcs, nbRb), nbRb, true)
  }

  /** A retransmission on process `p`, which waits if its blocks do not fit the grant. */
  ghost predicate RetransmissionStep(t: TbsTable, bw: Bandwidth, u: UeState, p: nat, u': UeState, sent: Option<Sent>)
    requires StateFits(bw, u) && p < MAX_NUM_HARQ
  {
    var nbRb := u.alloc.required;
    if nbRb <= u.alloc.available then
      && u' == InFlight(u, p) && sent.Some?
      && IsDciFor(bw, u, sent.value, p, u.tx.ndi[p], u.tx.mcs[p], TbsDl(t, u.tx.mcs[p], nbRb), nbRb, false)
    else u' == u && sent == None
  }

  /** The outcome for one UE; `mcs0` and `mcs` are the MCS variable before and after, which outlives the UE. */
  ghost predicate SendStep(t: TbsTable, bw: Bandwidth, u: UeState, inp: UeInput, mcs0: nat,
                           u': UeState, sent: Option<Sent>, mcs: nat)
    requires StateFits(bw, u) && ReportOk(inp.report) && mcs0 <= MAX_MCS
  {
    var p := NextHarq(u.harq, 0);
    if !inp.cceFeasible || p == -1 || u.alloc.available == 0 then
      u' == u && sent == None && mcs == mcs0
    else if u.harq.stats[p] > 0 then
      mcs == u.tx.mcs[p] && RetransmissionStep(t, bw, u, p, u', sent)
    else
      var m := InputMcs(inp, mcs0);
      match inp.payload
      case None => u' == u && sent == None && mcs == m
      case Some(need) => sent.Some? && NewDataStep(t, bw, u, p, m, need, u', sent.value, mcs)
  }

  lemma {:induction false} GridSearchBound(t: TbsTable, mcs: nat, unit: nat, limit: nat, bytes: nat, nb: nat)
    requires unit > 0 && limit <= 110 && nb <= 110
    ensures GridSearch(t, mcs, unit, limit, bytes, nb) <= if nb <= limit then limit else nb
    decreases limit + unit - nb
  {
    if TbsDl(t, mcs, nb) >= bytes || nb + unit > limit {
    } else {
      GridSearchBound(t, mcs, unit, limit, bytes, nb + unit);
    }
  }

  /** Marks the groups to send and builds their bitmap. */
  method FillAndEncode(bw: Bandwidth, ue: UeSchedulingInfo, p: nat, nbRb: nat) returns (bitmap: nat)
    requires ue.Shaped() && ue.NothingSent() && p < MAX_NUM_HARQ && nbRb <= 110
    modifies ue.rballocSubScheduled[p]
    ensures IsBitmapOf(bitmap, bw, ue.rballocSub[..], nbRb)
  {
    var row := ue.rballocSubScheduled[p];
    FillSubbands(bw, ue, row, nbRb);
    bitmap := AllocatePrbsSub(nbRb, row, bw);
    forall c: nat | c < NbRbg(bw) {
      FillKeepsPrefix(bw, ue.rballocSub[..], row[..], nbRb, ue.preNbRbsAvailable, c);
    }
  }

  /** A pending retransmission is sent unchanged if its blocks fit the grant, and waits otherwise. */
  method Retransmit(t: TbsTable, bw: Bandwidth, ue: UeSchedulingInfo, mac: UeMacRibInfo, p: nat, ghost u: UeState)
    returns (sent: Option<Sent>, mcs: nat, ghost u': UeState)
    requires Holds(ue, mac, u) && ue.NothingSent() && mac.activeHarq !in ue.Maps() && StateFits(bw, u)
    requires p < MAX_NUM_HARQ
    modifies ue.rballocSubScheduled[p], mac.activeHarq
    ensures mcs == u.tx.mcs[p] && RetransmissionStep(t, bw, u, p, u', sent) && Holds(ue, mac, u')
  {
    mcs := ue.mcs[p];
    var nbRb := ue.nbRbsRequired;
    if nbRb > ue.preNbRbsAvailable {
      return None, mcs, u;
    }
    assert ue.rballocSubScheduled[p] in ue.Maps();
    var round := mac.harqStats[p];
    var bitmap := FillAndEncode(bw, ue, p, nbRb);
    mac.HarqScheduled(p);
    u' := InFlight(u, p);
    sent := Some(Sent(Dci(p, ue.ndi[p], round % 4, mcs, TbsDl(t, mcs, nbRb), bitmap), nbRb, false));
  }

  /** The record of new data. */
  method Record(ue: UeSchedulingInfo, mac: UeMacRibInfo, p: nat, nbRb: nat, mcs: nat, ghost u: UeState)
    requires Holds(ue, mac, u) && mac.activeHarq !in ue.Maps() && p < MAX_NUM_HARQ && u.tx.ndi[p] <= 1
    modifies mac.activeHarq, ue`nbScheduledRbs, ue`mcs, ue`ndi
    ensures Holds(ue, mac, AfterNewData(u, p, nbRb, mcs))
  {
    ue.mcs := ue.mcs[p := mcs];
    ue.nbScheduledRbs := ue.nbScheduledRbs[p := nbRb];
    ue.ToggleNdi(p);
    mac.HarqScheduled(p);
  }

  /** New data: sizes the blocks, marks groups, searches the MCS, and toggles the new-data indicator. */
  method TransmitNew(t: TbsTable, bw: Bandwidth, ue: UeSchedulingInfo, mac: UeMacRibInfo, p: nat, need: nat, m: nat,
                     ghost u: UeState)
    returns (s: Sent, mcs: nat, ghost u': UeState)
    requires Holds(ue, mac, u) && ue.NothingSent() && mac.activeHarq !in ue.Maps() && StateFits(bw, u)
    requires p < MAX_NUM_HARQ && m <= MAX_MCS
    modifies ue.rballocSubScheduled[p], mac.activeHarq, ue`nbScheduledRbs, ue`mcs, ue`ndi
    ensures NewDataStep(t, bw, u, p, m, need, u', s, mcs) && Holds(ue, mac, u') && mcs <= MAX_MCS
  {
    assert ue.rballocSubScheduled[p] in ue.Maps();
    var nbRb := FitRbs(t, m, MinRbUnit(bw), ue.preNbRbsAvailable, need, StartRbs(bw, m));
    var bitmap := FillAndEncode(bw, ue, p, nbRb);
    var tbs;
    mcs, tbs := SearchMcs(t, nbRb, need, m);
    var round := mac.harqStats[p];
    Record(ue, mac, p, nbRb, mcs, u);
    u' := AfterNewData(u, p, nbRb, mcs);
    s := Sent(Dci(p, ue.ndi[p], round % 4, mcs, tbs, bitmap), nbRb, true);
  }

  /** The second half of the scheduler for one UE. */
  method ScheduleUe(t: TbsTable, bw: Bandwidth, ue: UeSchedulingInfo, mac: UeMacRibInfo, inp: UeInput, mcs0: nat,
                    ghost u: UeState)
    returns (sent: Option<Sent>, mcs: nat, ghost u': UeState)
    requires Holds(ue, mac, u) && ue.NothingSent() && mac.activeHarq !in ue.Maps() && StateFits(bw, u)
    requires ReportOk(inp.report) && mcs0 <= MAX_MCS
    modifies ue.rballocSubScheduled, mac.activeHarq, ue`nbScheduledRbs, ue`mcs, ue`ndi
    ensures SendStep(t, bw, u, inp, mcs0, u', sent, mcs) && Holds(ue, mac, u') && mcs <= MAX_MCS
  {
    var p := mac.GetNextAvailableHarq();
    if !inp.cceFeasible || p == -1 || ue.preNbRbsAvailable == 0 {
      return None, mcs0, u;
    }
    var round := mac.harqStats[p];
    if round > 0 {
      sent, mcs, u' := Retransmit(t, bw, ue, mac, p, u);
    } else {
      var m := if inp.report.wbCqi.Some? then WidebandMcs(inp.report) else mcs0;
      if inp.payload.None? {
        return None, m, u;
      }
      var s;
      s, mcs, u' := TransmitNew(t, bw, ue, mac, p, inp.payload.value, m, u);
      sent := Some(s);
    }
  }

  // ---------- does the bitmap carry the blocks? ----------

  /** The groups that a bitmap for `nbRb` blocks of the granted groups addresses. */
  function PrefixMap(bw: Bandwidth, m: RbgMap, nbRb: nat): RbgMap {
    seq(N_RBG_MAX, c requires 0 <= c < N_RBG_MAX => InShortestPrefix(bw, m, nbRb, c))
  }

  lemma {:induction false} PrefixSize(bw: Bandwidth, m: RbgMap, nbRb: nat, n: nat)
    requires n <= NbRbg(bw) && nbRb > 0
    ensures SizeOf(bw, m, n) < nbRb ==> SizeOf(bw, PrefixMap(bw, m, nbRb), n) == SizeOf(bw, m, n)
    ensures SizeOf(bw, m, n) >= nbRb ==> nbRb <= SizeOf(bw, PrefixMap(bw, m, nbRb), n) < nbRb + MinRbUnit(bw)
  {
    if n == 0 {
    } else {
      PrefixSize(bw, m, nbRb, n - 1);
    }
  }

  /** The bitmap carries the blocks needed exactly when the grant does, and then less than a unit more. */
  lemma {:induction false} BitmapCarries(bw: Bandwidth, m: RbgMap, nbRb: nat)
    requires nbRb > 0
    ensures
      var carried := Rbs(bw, PrefixMap(bw, m, nbRb));
      && (carried >= nbRb <==> Rbs(bw, m) >= nbRb)
      && (carried >= nbRb ==> carried < nbRb + MinRbUnit(bw))
      && (carried < nbRb ==> carried == Rbs(bw, m))
  {
    PrefixSize(bw, m, nbRb, NbRbg(bw));
  }

  lemma {:induction false} GridSearchBeyond(t: TbsTable, mcs: nat, unit: nat, limit: nat, bytes: nat, nb: nat)
    requires unit > 0 && limit <= 110 && nb <= 110
    ensures GridSearch(t, mcs, unit, limit, bytes, nb) > limit <==> nb > limit && TbsDl(t, mcs, nb) >= bytes
    decreases limit + unit - nb
  {
    if TbsDl(t, mcs, nb) >= bytes || nb + unit > limit {
    } else {
      GridSearchBeyond(t, mcs, unit, limit, bytes, nb + unit);
    }
  }

  /** The grant is below the starting size, and the starting size holds the data already. */
  predicate StartHoldsBeyondGrant(t: TbsTable, bw: Bandwidth, u: UeState, inp: UeInput, mcs0: nat)
    requires ReportOk(inp.report) && mcs0 <= MAX_MCS
  {
    var start := StartRbs(bw, InputMcs(inp, mcs0));
    start > u.alloc.available && TbsDl(t, InputMcs(inp, mcs0), start) >= inp.payload.GetOr(0)
  }

  /**
   * The intention that a bitmap carries the blocks its transport block is sized for holds unless the process is
   * acknowledged, so that new data is sent, and the starting size holds that data but not the grant.
   */
  lemma {:induction false} BitmapCarriesExactlyWhen(t: TbsTable, bw: Bandwidth, u: UeState, inp: UeInput, mcs0: nat,
                                                    u': UeState, sent: Option<Sent>, mcs: nat)
    requires StateFits(bw, u) && ReportOk(inp.report) && mcs0 <= MAX_MCS
    requires u.alloc.available == Rbs(bw, u.alloc.rbgs) && (u.alloc.required == 0 ==> u.alloc.available == 0)
    requires SendStep(t, bw, u, inp, mcs0, u', sent, mcs) && sent.Some?
    ensures
      var p := NextHarq(u.harq, 0);
      p != -1 &&
      (Rbs(bw, PrefixMap(bw, u.alloc.rbgs, sent.value.nbRb)) >= sent.value.nbRb <==>
       !(u.harq.stats[p] == 0 && StartHoldsBeyondGrant(t, bw, u, inp, mcs0)))
  {
    var nbRb := sent.value.nbRb;
    if sent.value.isNew {
      var m := InputMcs(inp, mcs0);
      GridSearchPositive(t, m, MinRbUnit(bw), u.alloc.available, inp.payload.value, StartRbs(bw, m));
      GridSearchBeyond(t, m, MinRbUnit(bw), u.alloc.available, inp.payload.value, StartRbs(bw, m));
    }
    BitmapCarries(bw, u.alloc.rbgs, nbRb);
  }
}
