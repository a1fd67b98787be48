/** Per-UE scheduling and HARQ state (src/app/ue_scheduling_info.h, src/rib/ue_mac_rib_info.h). */
module UeScheduling {
  import opened Primitives

  const MAX_NUM_HARQ := 8

  function EmptyMap(): RbgMap {
    seq(N_RBG_MAX, _ => false)
  }

  /** Conversion of an `int` to the `uint16_t` parameters of the setters. */
  function U16(x: int): nat {
    x % 0x1_0000
  }

  /** The counters of one allocation round: what a UE wants, still wants, and has been granted. */
  datatype Alloc = Alloc(required: nat, remaining: nat, remaining1: nat, available: nat, rbgs: RbgMap, high: bool)

  /** What is kept per HARQ process from round to round: blocks, MCS and NDI of the last new data. */
  datatype TxTable = TxTable(nbScheduled: seq<nat>, mcs: seq<nat>, ndi: seq<nat>)

  type Tx = t: TxTable | |t.nbScheduled| == |t.mcs| == |t.ndi| == MAX_NUM_HARQ
    witness TxTable(seq(MAX_NUM_HARQ, _ => 0), seq(MAX_NUM_HARQ, _ => 0), seq(MAX_NUM_HARQ, _ => 0))

  /** Availability and last feedback of each HARQ process. */
  datatype HarqTable = HarqTable(active: seq<bool>, stats: seq<nat>)

  type Harq = h: HarqTable | |h.active| == |h.stats| == MAX_NUM_HARQ
    witness HarqTable(seq(MAX_NUM_HARQ, _ => true), seq(MAX_NUM_HARQ, _ => 0))

  /** The scheduling state of one UE in its primary cell. */
  class UeSchedulingInfo {
    var nbRbsRequired: nat
    var nbRbsRequiredRemaining: nat
    var nbRbsRequiredRemaining1: nat
    var preNbRbsAvailable: nat
    var highPriority: bool
    var nbScheduledRbs: seq<nat>
    var mcs: seq<nat>
    var ndi: seq<nat>
    const rballocSub: array<bool>
    const rballocSubScheduled: seq<array<bool>>

    /** The maps are separate arrays of full length. */
    ghost predicate Shaped() {
      && rballocSub.Length == N_RBG_MAX
      && |rballocSubScheduled| == MAX_NUM_HARQ
      && (forall p | 0 <= p < MAX_NUM_HARQ :: rballocSubScheduled[p].Length == N_RBG_MAX)
      && rballocSub !in rballocSubScheduled
      && forall p, q | 0 <= p < q < MAX_NUM_HARQ :: rballocSubScheduled[p] != rballocSubScheduled[q]
    }

    ghost function Maps(): set<array<bool>> {
      {rballocSub} + set m | m in rballocSubScheduled
    }

    ghost function GetAlloc(): Alloc
      requires Shaped()
      reads this`nbRbsRequired, this`nbRbsRequiredRemaining, this`nbRbsRequiredRemaining1
      reads this`preNbRbsAvailable, this`highPriority, rballocSub
    {
      Alloc(nbRbsRequired, nbRbsRequiredRemaining, nbRbsRequiredRemaining1, preNbRbsAvailable, rballocSub[..],
            highPriority)
    }

    ghost function GetTx(): TxTable
      reads this`nbScheduledRbs, this`mcs, this`ndi
    {
      TxTable(nbScheduledRbs, mcs, ndi)
    }

    /** No group is marked as sent yet, for any HARQ process. */
    ghost predicate NothingSent()
      requires Shaped()
      reads rballocSubScheduled
    {
      forall p, k | 0 <= p < MAX_NUM_HARQ && 0 <= k < N_RBG_MAX :: !rballocSubScheduled[p][k]
    }

    constructor ()
      ensures Shaped() && fresh(Maps())
      ensures GetAlloc() == Alloc(0, 0, 0, 0, EmptyMap(), true)
      ensures GetTx() == FreshTx() && NothingSent()
    {
      nbRbsRequired, nbRbsRequiredRemaining, nbRbsRequiredRemaining1, preNbRbsAvailable := 0, 0, 0, 0;
      highPriority := true;
      nbScheduledRbs := seq(MAX_NUM_HARQ, _ => 0);
      mcs := seq(MAX_NUM_HARQ, _ => 0);
      ndi := seq(MAX_NUM_HARQ, _ => 0);
      var sub := new bool[N_RBG_MAX](_ => false);
      var rows: seq<array<bool>> := [];
      while |rows| < MAX_NUM_HARQ
        invariant |rows| <= MAX_NUM_HARQ
        invariant forall p | 0 <= p < |rows| :: fresh(rows[p]) && rows[p].Length == N_RBG_MAX && rows[p] != sub
        invariant forall p, i | 0 <= p < |rows| && 0 <= i < N_RBG_MAX :: !rows[p][i]
        invariant forall i | 0 <= i < N_RBG_MAX :: !sub[i]
        invariant forall p, q | 0 <= p < q < |rows| :: rows[p] != rows[q]
      {
        var row := new bool[N_RBG_MAX](_ => false);
        rows := rows + [row];
      }
      rballocSub, rballocSubScheduled := sub, rows;
      new;
      assert rballocSub[..] == EmptyMap();
    }

    method StartNewSchedulingRound()
      requires Shaped()
      modifies this`nbRbsRequired, this`nbRbsRequiredRemaining, this`nbRbsRequiredRemaining1, this`preNbRbsAvailable
      modifies Maps()
      ensures GetAlloc() == Alloc(0, 0, 0, 0, EmptyMap(), old(highPriority))
      ensures NothingSent()
    {
      forall i | 0 <= i < N_RBG_MAX {
        rballocSub[i] := false;
      }
      for p := 0 to MAX_NUM_HARQ
        invariant forall i | 0 <= i < N_RBG_MAX :: !rballocSub[i]
        invariant forall q, i | 0 <= q < p && 0 <= i < N_RBG_MAX :: !rballocSubScheduled[q][i]
      {
        forall i | 0 <= i < N_RBG_MAX {
          rballocSubScheduled[p][i] := false;
        }
      }
      nbRbsRequired, nbRbsRequiredRemaining, nbRbsRequiredRemaining1, preNbRbsAvailable := 0, 0, 0, 0;
      assert rballocSub[..] == EmptyMap();
    }

    method ToggleNdi(harqPid: nat)
      requires harqPid < |ndi| && ndi[harqPid] <= 1
      modifies this`ndi
      ensures ndi == old(ndi)[harqPid := 1 - old(ndi)[harqPid]]
    {
      ndi := ndi[harqPid := 1 - ndi[harqPid]];
    }
  }

  function FreshTx(): Tx {
    TxTable(seq(MAX_NUM_HARQ, _ => 0), seq(MAX_NUM_HARQ, _ => 0), seq(MAX_NUM_HARQ, _ => 0))
  }

  /** The lowest process that is available, if any. */
  function NextHarq(h: Harq, from: nat): (p: int)
    requires from <= MAX_NUM_HARQ
    ensures p == -1 ==> forall q | from <= q < MAX_NUM_HARQ :: !h.active[q]
    ensures p != -1 ==> from <= p < MAX_NUM_HARQ && h.active[p] && forall q | from <= q < p :: !h.active[q]
    decreases MAX_NUM_HARQ - from
  {
    if from == MAX_NUM_HARQ then -1 else if h.active[from] then from else NextHarq(h, from + 1)
  }

  /** Feedback reaches the first transport block when at least one status is reported. */
  function Fed(h: Harq, harqPid: nat, statuses: seq<nat>): Harq
    requires harqPid < MAX_NUM_HARQ
  {
    if statuses == [] then h
    else HarqTable(h.active[harqPid := true], h.stats[harqPid := statuses[0]])
  }

  /** The HARQ part of what is known of a UE, for its primary cell and first transport block. */
  class UeMacRibInfo {
    const activeHarq: array<bool>
    const harqStats: array<nat>

    ghost predicate Shaped() {
      activeHarq.Length == harqStats.Length == MAX_NUM_HARQ
    }

    ghost function GetHarq(): Harq
      requires Shaped()
      reads activeHarq, harqStats
    {
      HarqTable(activeHarq[..], harqStats[..])
    }

    constructor ()
      ensures Shaped() && fresh(activeHarq) && fresh(harqStats)
      ensures GetHarq() == FreshHarq()
    {
      activeHarq := new bool[MAX_NUM_HARQ](_ => true);
      harqStats := new nat[MAX_NUM_HARQ](_ => 0);
      new;
      assert activeHarq[..] == FreshHarq().active && harqStats[..] == FreshHarq().stats;
    }

    method UpdateDlSfInfo(harqPid: nat, statuses: seq<nat>)
      requires Shaped() && harqPid < MAX_NUM_HARQ
      modifies activeHarq, harqStats
      ensures GetHarq() == Fed(old(GetHarq()), harqPid, statuses)
    {
      if |statuses| > 0 {
        harqStats[harqPid] := statuses[0];
        activeHarq[harqPid] := true;
      }
    }

    method GetNextAvailableHarq() returns (p: int)
      requires Shaped()
      ensures p == NextHarq(GetHarq(), 0)
    {
      for i := 0 to MAX_NUM_HARQ
        invariant NextHarq(GetHarq(), 0) == NextHarq(GetHarq(), i)
      {
        if activeHarq[i] {
          return i;
        }
      }
      return -1;
    }

    method HarqScheduled(harqPid: nat)
      requires Shaped() && harqPid < MAX_NUM_HARQ
      modifies activeHarq
      ensures GetHarq() == old(GetHarq()).(active := old(GetHarq()).active[harqPid := false])
    {
      activeHarq[harqPid] := false;
    }
  }

  function FreshHarq(): Harq {
    HarqTable(seq(MAX_NUM_HARQ, _ => true), seq(MAX_NUM_HARQ, _ => 0))
  }
}
