/** The downlink preprocessor: demand sizing, ordering, shares and grants (src/app/remote_scheduler_helper.cc). */
module Preprocessor {
  import opened Options
  import opened Primitives
  import opened UeScheduling

  // ---------- reports ----------

  /** One logical channel of a UE: queue length in bytes and head-of-line delay, where reported. */
  datatype RlcReport = RlcReport(lcId: nat, txQueueSize: nat, holDelay: nat)

  /** What the base station reported of a UE; `lcConfigs` counts its configured logical channels, if it has an entry. */
  datatype UeReport = UeReport(rlc: seq<RlcReport>, wbCqi: Option<nat>, lcConfigs: Option<nat>)

  const CQI_TO_MCS: seq<nat> := [0, 0, 1, 2, 4, 6, 8, 11, 13, 16, 18, 20, 23, 25, 27, 28]

  predicate ReportOk(r: UeReport) {
    r.wbCqi.Some? ==> r.wbCqi.value < |CQI_TO_MCS|
  }

  /** The MCS for the reported wideband CQI; 0 without a report for this cell. */
  function WidebandMcs(r: UeReport): (m: nat)
    requires ReportOk(r)
    ensures m <= MAX_MCS
  {
    if r.wbCqi.Some? then CQI_TO_MCS[r.wbCqi.value] else 0
  }

  function QueuedBytes(rlc: seq<RlcReport>): nat {
    if rlc == [] then 0 else QueuedBytes(rlc[..|rlc| - 1]) + rlc[|rlc| - 1].txQueueSize
  }

  // ---------- demand sizing ----------

  /** Fewest resource blocks to start with: no tiny transport blocks at the lowest MCS. */
  function StartRbs(bw: Bandwidth, mcs: nat): nat {
    if mcs == 0 then 4 else MinRbUnit(bw)
  }

  /** From `nb` upwards in steps of one unit, the first size whose block holds `bytes`; else the limit. */
  function GridSearch(t: TbsTable, mcs: nat, unit: nat, limit: nat, bytes: nat, nb: nat): (r: nat)
    requires unit > 0 && limit <= 110 && nb <= 110
    ensures r <= 110
    decreases limit + unit - nb
  {
    if TbsDl(t, mcs, nb) >= bytes then nb
    else if nb + unit > limit then limit
    else GridSearch(t, mcs, unit, limit, bytes, nb + unit)
  }

  /** `nb` is reached from `start` in steps of one unit. */
  predicate OnGrid(nb: nat, unit: nat, start: nat)
    requires unit > 0
    decreases nb + unit - start
  {
    nb == start || (start + unit <= nb && OnGrid(nb, unit, start + unit))
  }

  /** The size found is the least on the grid within the limit that holds the bytes, whatever the table;
      if there is none, it is the limit, or the start itself where that already lies beyond the limit. */
  lemma {:induction false} GridSearchIsLeast(t: TbsTable, mcs: nat, unit: nat, limit: nat, bytes: nat, start: nat)
    requires unit > 0 && limit <= 110 && start <= 110
    ensures
      var r := GridSearch(t, mcs, unit, limit, bytes, start);
      && (forall nb: nat | nb < r && nb <= limit && OnGrid(nb, unit, start) :: TbsDl(t, mcs, nb) < bytes)
      && ((OnGrid(r, unit, start) && TbsDl(t, mcs, r) >= bytes && (r <= limit || r == start))
          || (r == limit && forall nb: nat | nb <= limit && OnGrid(nb, unit, start) :: TbsDl(t, mcs, nb) < bytes))
    decreases limit + unit - start
  {
    if TbsDl(t, mcs, start) >= bytes || start + unit > limit {
    } else {
      GridSearchIsLeast(t, mcs, unit, limit, bytes, start + unit);
    }
  }

  method FitRbs(t: TbsTable, mcs: nat, unit: nat, limit: nat, bytes: nat, start: nat) returns (nbRb: nat)
    requires unit > 0 && limit <= 110 && start <= 110
    ensures nbRb == GridSearch(t, mcs, unit, limit, bytes, start)
  {
    nbRb := start;
    var tbs := TbsDl(t, mcs, nbRb);
    while tbs < bytes
      invariant nbRb <= 110 && tbs == TbsDl(t, mcs, nbRb)
      invariant GridSearch(t, mcs, unit, limit, bytes, start) == GridSearch(t, mcs, unit, limit, bytes, nbRb)
      decreases limit + unit - nbRb
    {
      nbRb := nbRb + unit;
      if nbRb > limit {
        tbs := TbsDl(t, mcs, limit);
        nbRb := limit;
        break;
      }
      tbs := TbsDl(t, mcs, nbRb);
    }
  }

  /** The sizing step on values: demand and priority of a UE from its report. */
  function Sized(t: TbsTable, bw: Bandwidth, a: Alloc, r: UeReport): Alloc
    requires ReportOk(r)
  {
    if r.lcConfigs.None? then a
    else
      var b := if r.rlc == [] then a else a.(high := r.lcConfigs.value <= 2);
      var bytes := QueuedBytes(r.rlc);
      if bytes == 0 then b
      else b.(required := GridSearch(t, WidebandMcs(r), MinRbUnit(bw), bw, bytes, StartRbs(bw, WidebandMcs(r))))
  }

  method AssignRbsRequired(t: TbsTable, bw: Bandwidth, ue: UeSchedulingInfo, r: UeReport)
    requires ue.Shaped() && ReportOk(r) && r.lcConfigs.Some?
    modifies ue`nbRbsRequired, ue`highPriority
    ensures ue.GetAlloc() == Sized(t, bw, old(ue.GetAlloc()), r)
  {
    var mcs := WidebandMcs(r);
    var bytes := 0;
    for i := 0 to |r.rlc|
      invariant bytes == QueuedBytes(r.rlc[..i])
      invariant ue.highPriority == if i == 0 then old(ue.highPriority) else r.lcConfigs.value <= 2
      invariant ue.nbRbsRequired == old(ue.nbRbsRequired)
    {
      ue.highPriority := !(r.lcConfigs.value > 2);
      bytes := bytes + r.rlc[i].txQueueSize;
      assert r.rlc[..i + 1][..i] == r.rlc[..i];
    }
    assert r.rlc[..|r.rlc|] == r.rlc;
    if bytes > 0 {
      var nb := FitRbs(t, mcs, MinRbUnit(bw), bw, bytes, StartRbs(bw, mcs));
      ue.nbRbsRequired := nb;
    }
  }

  /** The demand is the least grid size within the bandwidth that holds the buffer, else the bandwidth. */
  lemma {:induction false} DemandIsLeast(t: TbsTable, bw: Bandwidth, a: Alloc, r: UeReport)
    requires ReportOk(r) && r.lcConfigs.Some? && QueuedBytes(r.rlc) > 0
    ensures
      var mcs, bytes, start := WidebandMcs(r), QueuedBytes(r.rlc), StartRbs(bw, WidebandMcs(r));
      var d := Sized(t, bw, a, r).required;
      && 0 < d <= bw
      && (forall nb: nat | nb < d && OnGrid(nb, MinRbUnit(bw), start) :: TbsDl(t, mcs, nb) < bytes)
      && ((OnGrid(d, MinRbUnit(bw), start) && TbsDl(t, mcs, d) >= bytes) || d == bw)
  {
    GridSearchIsLeast(t, WidebandMcs(r), MinRbUnit(bw), bw, QueuedBytes(r.rlc), StartRbs(bw, WidebandMcs(r)));
    GridSearchPositive(t, WidebandMcs(r), MinRbUnit(bw), bw, QueuedBytes(r.rlc), StartRbs(bw, WidebandMcs(r)));
  }

  lemma {:induction false} GridSearchPositive(t: TbsTable, mcs: nat, unit: nat, limit: nat, bytes: nat, nb: nat)
    requires unit > 0 && 0 < limit <= 110 && 0 < nb <= 110
    ensures 0 < GridSearch(t, mcs, unit, limit, bytes, nb)
    ensures nb <= limit ==> GridSearch(t, mcs, unit, limit, bytes, nb) <= limit
    decreases limit + unit - nb
  {
    if TbsDl(t, mcs, nb) >= bytes || nb + unit > limit {
    } else {
      GridSearchPositive(t, mcs, unit, limit, bytes, nb + unit);
    }
  }

  // ---------- serving order ----------

  datatype UeStats = UeStats(harqRound: nat, bytesInCcch: nat, holDelay: nat, totalBytes: nat, cqi: nat)

  /** True if `a` is served before or along with `b`; ties compare as true both ways. */
  predicate CompareStats(a: UeStats, b: UeStats) {
    if a.harqRound != b.harqRound then a.harqRound > b.harqRound
    else if a.bytesInCcch != b.bytesInCcch then a.bytesInCcch > b.bytesInCcch
    else if a.holDelay != b.holDelay then a.holDelay > b.holDelay
    else if a.totalBytes != b.totalBytes then a.totalBytes > b.totalBytes
    else a.cqi >= b.cqi
  }

  /** The comparison is a total preorder, so an ordered permutation exists. */
  lemma {:induction false} CompareStatsIsTotalPreorder(a: UeStats, b: UeStats, c: UeStats)
    ensures CompareStats(a, a)
    ensures CompareStats(a, b) || CompareStats(b, a)
    ensures CompareStats(a, b) && CompareStats(b, c) ==> CompareStats(a, c)
    ensures CompareStats(a, b) && CompareStats(b, a) ==> a == b
  {
  }

  function CcchBytes(rlc: seq<RlcReport>): nat {
    if rlc == [] then 0
    else
      var last := rlc[|rlc| - 1];
      CcchBytes(rlc[..|rlc| - 1]) + (if last.lcId == 1 || last.lcId == 2 then last.txQueueSize else 0)
  }

  function MaxHolDelay(rlc: seq<RlcReport>): nat {
    if rlc == [] then 0
    else
      var before := MaxHolDelay(rlc[..|rlc| - 1]);
      if before >= rlc[|rlc| - 1].holDelay then before else rlc[|rlc| - 1].holDelay
  }

  /** The figures a UE is ordered by; all zero while it has no HARQ process available. */
  function StatsOf(h: Harq, r: UeReport): UeStats
  {
    var p := NextHarq(h, 0);
    if p == -1 then UeStats(0, 0, 0, 0, 0)
    else UeStats(h.stats[p], CcchBytes(r.rlc), MaxHolDelay(r.rlc), QueuedBytes(r.rlc),
                 if r.wbCqi.Some? then r.wbCqi.value else 0)
  }

  ghost predicate IsPermutation(order: seq<nat>, n: nat) {
    && |order| == n
    && (forall i | 0 <= i < n :: order[i] < n)
    && (forall u: nat | u < n :: u in order)
    && forall i, j | 0 <= i < j < n :: order[i] != order[j]
  }

  ghost predicate IsOrdered(stats: seq<UeStats>, order: seq<nat>) {
    && (forall i | 0 <= i < |order| :: order[i] < |stats|)
    && forall i, j | 0 <= i < j < |order| :: CompareStats(stats[order[i]], stats[order[j]])
  }

  function InsertedAt(order: seq<nat>, k: nat, u: nat): seq<nat>
    requires k <= |order|
  {
    order[..k] + [u] + order[k..]
  }

  lemma {:induction false} InsertKeepsPermutation(order: seq<nat>, k: nat, u: nat)
    requires k <= |order| && IsPermutation(order, u)
    ensures IsPermutation(InsertedAt(order, k, u), u + 1)
  {
    var r := InsertedAt(order, k, u);
    assert r[k] == u;
    forall v: nat | v < u
      ensures v in r
    {
      assert v in order;
      var i :| 0 <= i < |order| && order[i] == v;
      assert r[if i < k then i else i + 1] == v;
    }
  }

  lemma {:induction false} InsertKeepsOrder(stats: seq<UeStats>, order: seq<nat>, k: nat, u: nat)
    requires u < |stats| && k <= |order| && IsOrdered(stats, order)
    requires k > 0 ==> CompareStats(stats[order[k - 1]], stats[u])
    requires forall i | k <= i < |order| :: CompareStats(stats[u], stats[order[i]])
    ensures IsOrdered(stats, InsertedAt(order, k, u))
  {
    forall i | 0 <= i < k
      ensures CompareStats(stats[order[i]], stats[u])
    {
      if i < k - 1 {
        CompareStatsIsTotalPreorder(stats[order[i]], stats[order[k - 1]], stats[u]);
      }
    }
    var r := InsertedAt(order, k, u);
    forall i, j | 0 <= i < j < |r|
      ensures CompareStats(stats[r[i]], stats[r[j]])
    {
      var i', j' := if i <= k then i else i - 1, if j <= k then j else j - 1;
      assert i != k ==> r[i] == order[i'];
      assert j != k ==> r[j] == order[j'];
    }
  }

  /** Puts UE `u` behind every listed one that is served no later than it. */
  method Insert(stats: seq<UeStats>, order: seq<nat>, u: nat) returns (r: seq<nat>)
    requires u < |stats| && IsPermutation(order, u) && IsOrdered(stats, order)
    ensures IsPermutation(r, u + 1) && IsOrdered(stats, r)
  {
    var k := |order|;
    while k > 0 && !CompareStats(stats[order[k - 1]], stats[u])
      invariant 0 <= k <= |order|
      invariant forall i | k <= i < |order| :: CompareStats(stats[u], stats[order[i]])
    {
      k := k - 1;
    }
    InsertKeepsPermutation(order, k, u);
    InsertKeepsOrder(stats, order, k, u);
    r := InsertedAt(order, k, u);
  }

  method SortUes(stats: seq<UeStats>) returns (order: seq<nat>)
    ensures IsPermutation(order, |stats|) && IsOrdered(stats, order)
  {
    order := [];
    for u := 0 to |stats|
      invariant IsPermutation(order, u) && IsOrdered(stats, order)
    {
      order := Insert(stats, order, u);
    }
  }

  // ---------- HARQ choice and shares, on values ----------

  /** A pending retransmission demands the blocks of the lost transmission; otherwise that record is cleared. */
  function ChosenAlloc(a: Alloc, tx: Tx, h: Harq): Alloc
  {
    var p := NextHarq(h, 0);
    if p != -1 && h.stats[p] > 0 then a.(required := tx.nbScheduled[p]) else a
  }

  function ChosenTx(tx: Tx, h: Harq): Tx
  {
    var p := NextHarq(h, 0);
    if p != -1 && h.stats[p] == 0 then tx.(nbScheduled := tx.nbScheduled[p := 0]) else tx
  }

  predicate IsActive(a: Alloc, h: Harq)
  {
    NextHarq(h, 0) != -1 && a.required > 0
  }

  function AverageRbs(bw: Bandwidth, active: nat): nat {
    if active == 0 then 0
    else if MinRbUnit(bw) * active <= bw then bw / active
    else MinRbUnit(bw)
  }

  /** High-priority UEs may take all they want in the first round, the others up to the average. */
  function Shared(average: nat, a: Alloc): Alloc {
    if a.required == 0 then a
    else if a.high then a.(remaining1 := a.required)
    else a.(remaining1 := if average <= a.required then average else a.required)
  }
}
