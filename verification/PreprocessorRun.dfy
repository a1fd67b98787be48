/** The preprocessor on the shared objects: each step is proved to compute its value-level counterpart. */
module PreprocessorRun {
  import opened Primitives
  import opened UeScheduling
  import opened Allocation
  import opened Preprocessor

  /** No two UEs are one object or share their map of granted groups, and none shares the cell's map. */
  ghost predicate Separate(vrb: array<bool>, ues: seq<UeSchedulingInfo>) {
    && vrb.Length == N_RBG_MAX
    && (forall i | 0 <= i < |ues| :: ues[i].Shaped() && ues[i].rballocSub != vrb)
    && forall i, j | 0 <= i < j < |ues| :: ues[i] != ues[j] && ues[i].rballocSub != ues[j].rballocSub
  }

  ghost function GrantMaps(ues: seq<UeSchedulingInfo>): set<array<bool>> {
    set i | 0 <= i < |ues| :: ues[i].rballocSub
  }

  /** The counters and grants of the objects are those of the value-level cell. */
  ghost predicate Matches(vrb: array<bool>, ues: seq<UeSchedulingInfo>, c: Cell)
    requires Separate(vrb, ues)
    reads vrb, ues, GrantMaps(ues)
  {
    && vrb[..] == c.vrb && |ues| == |c.ues|
    && forall i | 0 <= i < |ues| :: ues[i].GetAlloc() == c.ues[i]
  }

  /** The body of the allocation loop: group `i` goes to the UE if it is free, wanted and fits. */
  method OfferGroup(bw: Bandwidth, i: nat, vrb: array<bool>, ue: UeSchedulingInfo)
    requires ue.Shaped() && vrb.Length == N_RBG_MAX && vrb != ue.rballocSub && i < NbRbg(bw)
    modifies vrb, ue.rballocSub, ue`nbRbsRequiredRemaining, ue`preNbRbsAvailable
    ensures Turn(vrb[..], ue.GetAlloc()) == Offer(bw, i, old(Turn(vrb[..], ue.GetAlloc())))
  {
    ghost var t := Turn(vrb[..], ue.GetAlloc());
    var minRbUnit := MinRbUnit(bw);
    if vrb[i] || ue.rballocSub[i] || ue.nbRbsRequiredRemaining <= 0 || ue.preNbRbsAvailable >= ue.nbRbsRequired {
      return;
    }
    var size := minRbUnit;
    if i == NbRbg(bw) - 1 && (bw == 25 || bw == 50) {
      size := minRbUnit - 1;
    } else if ue.nbRbsRequiredRemaining < minRbUnit {
      return;
    }
    vrb[i] := true;
    ue.rballocSub[i] := true;
    var nbRem := ue.nbRbsRequiredRemaining - size;
    ue.nbRbsRequiredRemaining := if nbRem <= 0 then 0 else U16(nbRem);
    ue.preNbRbsAvailable := U16(ue.preNbRbsAvailable + size);
    assert vrb[..] == t.vrb[i := true];
    assert ue.rballocSub[..] == t.ue.rbgs[i := true];
  }

  /** Offers the groups of the cell to one UE, lowest first. */
  method PerformPreProcessorAllocation(bw: Bandwidth, vrb: array<bool>, ue: UeSchedulingInfo)
    requires ue.Shaped() && vrb.Length == N_RBG_MAX && vrb != ue.rballocSub
    modifies vrb, ue.rballocSub, ue`nbRbsRequiredRemaining, ue`preNbRbsAvailable
    ensures Turn(vrb[..], ue.GetAlloc()) == OfferAll(bw, NbRbg(bw), old(Turn(vrb[..], ue.GetAlloc())))
  {
    for i := 0 to NbRbg(bw)
      invariant Turn(vrb[..], ue.GetAlloc()) == OfferAll(bw, i, old(Turn(vrb[..], ue.GetAlloc())))
    {
      OfferGroup(bw, i, vrb, ue);
    }
  }

  /** The turns of the UEs of one priority, in the given order. */
  method AllocatePriority(bw: Bandwidth, vrb: array<bool>, ues: seq<UeSchedulingInfo>, high: bool, ghost c: Cell)
    requires Separate(vrb, ues) && Matches(vrb, ues, c)
    modifies vrb, GrantMaps(ues), ues`nbRbsRequiredRemaining, ues`preNbRbsAvailable
    ensures Matches(vrb, ues, Pass(bw, high, |ues|, c))
  {
    for j := 0 to |ues|
      invariant Matches(vrb, ues, Pass(bw, high, j, c))
    {
      if ues[j].highPriority == high && ues[j].nbRbsRequired > 0 {
        TakeTurn(bw, vrb, ues, j, ues[j], Pass(bw, high, j, c));
      }
    }
  }

  /** The turn of the UE at `j`; the others keep their counters. */
  method TakeTurn(bw: Bandwidth, vrb: array<bool>, ues: seq<UeSchedulingInfo>, j: nat, ue: UeSchedulingInfo,
                  ghost d: Cell)
    requires Separate(vrb, ues) && Matches(vrb, ues, d) && j < |ues| && ue == ues[j]
    modifies vrb, ue.rballocSub, ue`nbRbsRequiredRemaining, ue`preNbRbsAvailable
    ensures Matches(vrb, ues, Serve(bw, j, d))
  {
    PerformPreProcessorAllocation(bw, vrb, ue);
    forall l | 0 <= l < |ues| && l != j
      ensures ues[l].GetAlloc() == d.ues[l]
    {
      assert ues[l] != ues[j] && ues[l].rballocSub != ues[j].rballocSub;
    }
  }

  /** Resets what each UE may still take, for the first or the second round. */
  method PrepareRound(vrb: array<bool>, ues: seq<UeSchedulingInfo>, second: bool, ghost c: Cell)
    requires Separate(vrb, ues) && Matches(vrb, ues, c)
    modifies ues`nbRbsRequiredRemaining
    ensures Matches(vrb, ues, Cell(c.vrb, PrepareAll(second, c.ues)))
  {
    for j := 0 to |ues|
      invariant vrb[..] == c.vrb
      invariant forall i | 0 <= i < |ues| ::
        ues[i].GetAlloc() == if i < j then Prepare(second, c.ues[i]) else c.ues[i]
    {
      var ue := ues[j];
      if ue.nbRbsRequired > 0 {
        if second {
          var nbRem := ue.nbRbsRequired - ue.nbRbsRequiredRemaining1 + ue.nbRbsRequiredRemaining;
          ue.nbRbsRequiredRemaining := U16(nbRem);
        } else {
          ue.nbRbsRequiredRemaining := ue.nbRbsRequiredRemaining1;
        }
      }
    }
  }

  /** Both rounds: in each, the high-priority UEs come before the others. */
  method AllocateRounds(bw: Bandwidth, vrb: array<bool>, ues: seq<UeSchedulingInfo>, active: nat, ghost c: Cell)
    requires Separate(vrb, ues) && Matches(vrb, ues, c)
    modifies vrb, GrantMaps(ues), ues`nbRbsRequiredRemaining, ues`preNbRbsAvailable
    ensures Matches(vrb, ues, Allocate(bw, active, c))
  {
    ghost var d := c;
    for r1 := 0 to 2
      invariant d == if r1 == 0 then c else if r1 == 1 then Round(bw, false, active, c) else Allocate(bw, active, c)
      invariant Matches(vrb, ues, d)
    {
      PrepareRound(vrb, ues, r1 == 1, d);
      ghost var e := Cell(d.vrb, PrepareAll(r1 == 1, d.ues));
      if active > 0 {
        AllocatePriority(bw, vrb, ues, true, e);
        AllocatePriority(bw, vrb, ues, false, Pass(bw, true, |ues|, e));
      }
      d := Round(bw, r1 == 1, active, d);
    }
  }

  /** Sets every UE's share of the first round. */
  method SetShares(bw: Bandwidth, vrb: array<bool>, ues: seq<UeSchedulingInfo>, active: nat, ghost c: Cell)
    requires Separate(vrb, ues) && Matches(vrb, ues, c)
    modifies ues`nbRbsRequiredRemaining1
    ensures Matches(vrb, ues, Cell(c.vrb, SharedAll(AverageRbs(bw, active), c.ues)))
  {
    var average := AverageRbs(bw, active);
    for j := 0 to |ues|
      invariant vrb[..] == c.vrb
      invariant forall i | 0 <= i < |ues| ::
        ues[i].GetAlloc() == if i < j then Shared(average, c.ues[i]) else c.ues[i]
    {
      var ue := ues[j];
      if ue.nbRbsRequired > 0 {
        if ue.highPriority {
          ue.nbRbsRequiredRemaining1 := ue.nbRbsRequired;
        } else {
          ue.nbRbsRequiredRemaining1 := if average <= ue.nbRbsRequired then average else ue.nbRbsRequired;
        }
      }
    }
  }

  function SharedAll(average: nat, ues: seq<Alloc>): seq<Alloc> {
    seq(|ues|, i requires 0 <= i < |ues| => Shared(average, ues[i]))
  }

  // ---------- HARQ choice ----------

  /** All that is kept of one UE. */
  datatype UeState = UeState(alloc: Alloc, tx: Tx, harq: Harq)

  /** The objects of a UE hold the given state. */
  ghost predicate Holds(ue: UeSchedulingInfo, mac: UeMacRibInfo, u: UeState)
    reads ue, ue.rballocSub, mac.activeHarq, mac.harqStats
  {
    && ue.Shaped() && mac.Shaped()
    && ue.GetAlloc() == u.alloc && ue.GetTx() == u.tx && mac.GetHarq() == u.harq
  }

  ghost predicate Mirrors(ues: seq<UeSchedulingInfo>, macs: seq<UeMacRibInfo>, us: seq<UeState>)
    reads ues, GrantMaps(ues)
    reads set i | 0 <= i < |macs| :: macs[i].activeHarq
    reads set i | 0 <= i < |macs| :: macs[i].harqStats
  {
    && |ues| == |macs| == |us|
    && forall i | 0 <= i < |ues| :: Holds(ues[i], macs[i], us[i])
  }

  /** The HARQ step on values. */
  function Chosen(u: UeState): UeState {
    UeState(ChosenAlloc(u.alloc, u.tx, u.harq), ChosenTx(u.tx, u.harq), u.harq)
  }

  /** How many of the first `n` UEs count as active. */
  function ActiveCount(us: seq<UeState>, n: nat): (c: nat)
    requires n <= |us|
  {
    if n == 0 then 0
    else ActiveCount(us, n - 1) + (if IsActive(us[n - 1].alloc, us[n - 1].harq) then 1 else 0)
  }

  /** The HARQ step for one UE; tells whether the UE counts as active. */
  method ChooseHarq(ue: UeSchedulingInfo, mac: UeMacRibInfo, ghost u: UeState) returns (active: bool)
    requires Holds(ue, mac, u)
    modifies ue`nbRbsRequired, ue`nbScheduledRbs
    ensures Holds(ue, mac, Chosen(u))
    ensures active == IsActive(Chosen(u).alloc, u.harq)
  {
    var harqPid := mac.GetNextAvailableHarq();
    if harqPid == -1 {
      return false;
    }
    var round := mac.harqStats[harqPid];
    if round > 0 {
      ue.nbRbsRequired := ue.nbScheduledRbs[harqPid];
    } else {
      ue.nbScheduledRbs := ue.nbScheduledRbs[harqPid := 0];
    }
    active := ue.nbRbsRequired > 0;
  }

  /** The HARQ step for the UE at `j`; the others keep their state. */
  method ChooseHarqAt(vrb: array<bool>, ues: seq<UeSchedulingInfo>, macs: seq<UeMacRibInfo>, j: nat,
                      ue: UeSchedulingInfo, ghost us: seq<UeState>, ghost w: UeState) returns (active: bool)
    requires Separate(vrb, ues) && Mirrors(ues, macs, us) && j < |ues| && ue == ues[j] && w == Chosen(us[j])
    modifies ue`nbRbsRequired, ue`nbScheduledRbs
    ensures Mirrors(ues, macs, us[j := w])
    ensures active == IsActive(w.alloc, w.harq)
  {
    active := ChooseHarq(ue, macs[j], us[j]);
    forall l | 0 <= l < |ues| && l != j
      ensures Holds(ues[l], macs[l], us[l])
    {
      assert ues[l] != ues[j];
    }
  }

  /** One pass of the HARQ loop: the step for the UE at `j`, and the count. */
  method ChooseAndCount(vrb: array<bool>, ues: seq<UeSchedulingInfo>, macs: seq<UeMacRibInfo>, j: nat, count: nat,
                        ghost us: seq<UeState>, ghost now: seq<UeState>, ghost us': seq<UeState>)
    returns (count': nat, ghost now': seq<UeState>)
    requires Separate(vrb, ues) && Mirrors(ues, macs, now) && j < |ues| == |us| && AllChosen(us, us')
    requires Progress(now, us', us, j) && count == ActiveCount(us', j)
    modifies ues`nbRbsRequired, ues`nbScheduledRbs
    ensures Mirrors(ues, macs, now') && Progress(now', us', us, j + 1)
    ensures count' == ActiveCount(us', j + 1)
  {
    var isActive := ChooseHarqAt(vrb, ues, macs, j, ues[j], now, us'[j]);
    now' := now[j := us'[j]];
    count' := if isActive then count + 1 else count;
  }

  /** The HARQ step for all UEs, counting the active ones. */
  method ChooseHarqs(vrb: array<bool>, ues: seq<UeSchedulingInfo>, macs: seq<UeMacRibInfo>,
                     ghost us: seq<UeState>, ghost us': seq<UeState>) returns (active: nat)
    requires Separate(vrb, ues) && Mirrors(ues, macs, us) && AllChosen(us, us')
    modifies ues`nbRbsRequired, ues`nbScheduledRbs
    ensures Mirrors(ues, macs, us')
    ensures active == ActiveCount(us', |us'|)
  {
    active := 0;
    ghost var now := us;
    for j := 0 to |ues|
      invariant Mirrors(ues, macs, now) && Progress(now, us', us, j)
      invariant active == ActiveCount(us', j)
    {
      active, now := ChooseAndCount(vrb, ues, macs, j, active, us, now, us');
    }
    assert now == us';
  }

  ghost predicate AllChosen(us: seq<UeState>, us': seq<UeState>) {
    |us'| == |us| && forall i | 0 <= i < |us| :: us'[i] == Chosen(us[i])
  }

  /** The first `j` elements are those of `done`, the others those of `todo`. */
  ghost predicate Progress<T>(now: seq<T>, done: seq<T>, todo: seq<T>, j: nat) {
    && |now| == |done| == |todo|
    && forall i | 0 <= i < |now| :: now[i] == if i < j then done[i] else todo[i]
  }

  // ---------- sizing ----------

  /** No map is shared between two UEs, with the cell, or with HARQ state, nor HARQ state between UEs. */
  ghost predicate World(vrb: array<bool>, ues: seq<UeSchedulingInfo>, macs: seq<UeMacRibInfo>) {
    && vrb.Length == N_RBG_MAX && |ues| == |macs|
    && (forall i | 0 <= i < |ues| :: ues[i].Shaped() && vrb !in ues[i].Maps())
    && (forall i | 0 <= i < |macs| :: macs[i].Shaped() && macs[i].activeHarq != vrb)
    && (forall i, j | 0 <= i < j < |ues| :: ues[i] != ues[j])
    && (forall i, j, m | 0 <= i < |ues| && 0 <= j < |ues| && m in ues[i].Maps() && m in ues[j].Maps() :: i == j)
    && (forall i, j | 0 <= i < |macs| && 0 <= j < |ues| :: macs[i].activeHarq !in ues[j].Maps())
    && forall i, j | 0 <= i < j < |macs| :: macs[i].activeHarq != macs[j].activeHarq
  }

  lemma {:induction false} WorldIsSeparate(vrb: array<bool>, ues: seq<UeSchedulingInfo>, macs: seq<UeMacRibInfo>)
    requires World(vrb, ues, macs)
    ensures Separate(vrb, ues)
  {
    forall i | 0 <= i < |ues|
      ensures ues[i].rballocSub in ues[i].Maps()
    {
    }
  }

  /** The state of a UE at the start of a round, after its demand was sized. */
  function Opened(t: TbsTable, bw: Bandwidth, u: UeState, r: UeReport): UeState
    requires ReportOk(r)
  {
    u.(alloc := Sized(t, bw, Alloc(0, 0, 0, 0, EmptyMap(), u.alloc.high), r))
  }

  /** The sizing step for one UE. */
  method OpenUe(t: TbsTable, bw: Bandwidth, ue: UeSchedulingInfo, mac: UeMacRibInfo, r: UeReport, ghost u: UeState)
    requires Holds(ue, mac, u) && ReportOk(r) && mac.activeHarq !in ue.Maps()
    modifies ue`nbRbsRequired, ue`nbRbsRequiredRemaining, ue`nbRbsRequiredRemaining1, ue`preNbRbsAvailable
    modifies ue`highPriority, ue.Maps()
    ensures Holds(ue, mac, Opened(t, bw, u, r)) && ue.NothingSent()
  {
    ue.StartNewSchedulingRound();
    assert ue.rballocSub in ue.Maps();
    if r.lcConfigs.Some? {
      AssignRbsRequired(t, bw, ue, r);
    }
  }

  ghost function AllMaps(ues: seq<UeSchedulingInfo>): set<array<bool>> {
    set i, m | 0 <= i < |ues| && m in ues[i].Maps() :: m
  }

  /** The UEs from `lo` up to `hi` have nothing marked as sent. */
  ghost predicate NothingSentIn(ues: seq<UeSchedulingInfo>, lo: nat, hi: nat)
    requires hi <= |ues| && forall i | 0 <= i < |ues| :: ues[i].Shaped()
    reads SentMaps(ues)
  {
    forall i | lo <= i < hi ::
      (forall m | m in ues[i].rballocSubScheduled :: m in SentMaps(ues)) && ues[i].NothingSent()
  }

  ghost function SentMaps(ues: seq<UeSchedulingInfo>): set<array<bool>> {
    set i, m | 0 <= i < |ues| && m in ues[i].rballocSubScheduled :: m
  }

  /** The sizing step for the UE at `j`; the others keep their state. */
  method OpenUeAt(t: TbsTable, bw: Bandwidth, vrb: array<bool>, ues: seq<UeSchedulingInfo>, macs: seq<UeMacRibInfo>,
                  j: nat, ue: UeSchedulingInfo, r: UeReport, ghost us: seq<UeState>)
    requires World(vrb, ues, macs) && Mirrors(ues, macs, us) && j < |ues| && ue == ues[j] && ReportOk(r)
    requires NothingSentIn(ues, 0, j)
    modifies ue`nbRbsRequired, ue`nbRbsRequiredRemaining, ue`nbRbsRequiredRemaining1, ue`preNbRbsAvailable
    modifies ue`highPriority, ue.Maps()
    ensures Mirrors(ues, macs, us[j := Opened(t, bw, us[j], r)])
    ensures NothingSentIn(ues, 0, j + 1)
  {
    OpenUe(t, bw, ue, macs[j], r, us[j]);
    forall l | 0 <= l < |ues| && l != j
      ensures Holds(ues[l], macs[l], us[l])
    {
      assert ues[l] != ues[j];
      assert ues[l].rballocSub in ues[l].Maps();
    }
    forall l | 0 <= l < j
      ensures ues[l].NothingSent()
    {
      forall p | 0 <= p < MAX_NUM_HARQ
        ensures ues[l].rballocSubScheduled[p] !in ue.Maps()
      {
        assert ues[l].rballocSubScheduled[p] in ues[l].Maps();
      }
    }
  }

  /** Sizes the demand of every UE from its report. */
  method SizeDemands(t: TbsTable, bw: Bandwidth, vrb: array<bool>, ues: seq<UeSchedulingInfo>, macs: seq<UeMacRibInfo>,
                     reports: seq<UeReport>, ghost us: seq<UeState>, ghost us': seq<UeState>)
    requires World(vrb, ues, macs) && Mirrors(ues, macs, us) && AllOpened(t, bw, us, reports, us')
    modifies ues`nbRbsRequired, ues`nbRbsRequiredRemaining, ues`nbRbsRequiredRemaining1, ues`preNbRbsAvailable
    modifies ues`highPriority, AllMaps(ues)
    ensures Mirrors(ues, macs, us') && NothingSentIn(ues, 0, |ues|)
  {
    ghost var now := us;
    for j := 0 to |ues|
      invariant Mirrors(ues, macs, now) && Progress(now, us', us, j)
      invariant NothingSentIn(ues, 0, j)
    {
      assert forall m | m in ues[j].Maps() :: m in AllMaps(ues);
      OpenUeAt(t, bw, vrb, ues, macs, j, ues[j], reports[j], now);
      now := now[j := us'[j]];
    }
    assert now == us';
  }

  ghost predicate AllOpened(t: TbsTable, bw: Bandwidth, us: seq<UeState>, reports: seq<UeReport>, us': seq<UeState>) {
    && |us| == |reports| == |us'|
    && forall i | 0 <= i < |us| :: ReportOk(reports[i]) && us'[i] == Opened(t, bw, us[i], reports[i])
  }

  // ---------- the whole preprocessor ----------

  function AllocsOf(us: seq<UeState>): (r: seq<Alloc>)
    ensures |r| == |us|
  {
    seq(|us|, i requires 0 <= i < |us| => us[i].alloc)
  }

  /** The cell when the rounds begin. */
  function OpeningCell(bw: Bandwidth, vrb: RbgMap, us: seq<UeState>): Cell {
    Cell(vrb, SharedAll(AverageRbs(bw, ActiveCount(us, |us|)), AllocsOf(us)))
  }

  /** The cell after both rounds, for UEs in serving order. */
  function GrantedCell(bw: Bandwidth, vrb: RbgMap, us: seq<UeState>): Cell {
    Allocate(bw, ActiveCount(us, |us|), OpeningCell(bw, vrb, us))
  }

  /** Shares, then both rounds. */
  method ShareAndAllocate(bw: Bandwidth, vrb: array<bool>, ues: seq<UeSchedulingInfo>, active: nat,
                          ghost c: Cell, ghost d: Cell)
    requires Separate(vrb, ues) && Matches(vrb, ues, c)
    requires d == Allocate(bw, active, Cell(c.vrb, SharedAll(AverageRbs(bw, active), c.ues)))
    modifies vrb, GrantMaps(ues)
    modifies ues`nbRbsRequiredRemaining, ues`nbRbsRequiredRemaining1, ues`preNbRbsAvailable
    ensures Matches(vrb, ues, d)
  {
    SetShares(bw, vrb, ues, active, c);
    AllocateRounds(bw, vrb, ues, active, Cell(c.vrb, SharedAll(AverageRbs(bw, active), c.ues)));
  }

  /** What the rounds leave alone: records and HARQ state. */
  ghost predicate KeepsRest(ues: seq<UeSchedulingInfo>, macs: seq<UeMacRibInfo>, us: seq<UeState>)
    reads ues
    reads set i | 0 <= i < |macs| :: macs[i].activeHarq
    reads set i | 0 <= i < |macs| :: macs[i].harqStats
  {
    && |ues| == |macs| == |us|
    && forall i | 0 <= i < |ues| :: ues[i].GetTx() == us[i].tx && macs[i].Shaped() && macs[i].GetHarq() == us[i].harq
  }

  lemma {:induction false} MirrorsParts(vrb: array<bool>, ues: seq<UeSchedulingInfo>, macs: seq<UeMacRibInfo>,
                                        us: seq<UeState>, d: Cell)
    requires Separate(vrb, ues) && Matches(vrb, ues, d) && KeepsRest(ues, macs, us)
    ensures Mirrors(ues, macs, Updated(us, d.ues))
  {
  }

  /** The states with new counters and grants. */
  function Updated(us: seq<UeState>, allocs: seq<Alloc>): (r: seq<UeState>)
    requires |allocs| == |us|
    ensures |r| == |us| && forall i | 0 <= i < |us| :: r[i] == us[i].(alloc := allocs[i])
  {
    seq(|us|, i requires 0 <= i < |us| => us[i].(alloc := allocs[i]))
  }

  /** Shares out and grants the groups of the cell to the UEs, which are in serving order. */
  method GrantRbs(bw: Bandwidth, vrb: array<bool>, ues: seq<UeSchedulingInfo>, macs: seq<UeMacRibInfo>, active: nat,
                  ghost us: seq<UeState>, ghost c: Cell, ghost d: Cell)
    requires Separate(vrb, ues) && HarqApart(vrb, ues, macs) && KeepsRest(ues, macs, us) && Matches(vrb, ues, c)
    requires d == Allocate(bw, active, Cell(c.vrb, SharedAll(AverageRbs(bw, active), c.ues)))
    modifies vrb, GrantMaps(ues)
    modifies ues`nbRbsRequiredRemaining, ues`nbRbsRequiredRemaining1, ues`preNbRbsAvailable
    ensures Matches(vrb, ues, d) && KeepsRest(ues, macs, us)
  {
    ShareAndAllocate(bw, vrb, ues, active, c, d);
    forall i | 0 <= i < |ues|
      ensures macs[i].GetHarq() == old(macs[i].GetHarq())
    {
      assert macs[i].activeHarq != vrb && macs[i].activeHarq !in GrantMaps(ues);
    }
  }

  ghost predicate HarqApart(vrb: array<bool>, ues: seq<UeSchedulingInfo>, macs: seq<UeMacRibInfo>) {
    forall i | 0 <= i < |macs| :: macs[i].activeHarq != vrb && macs[i].activeHarq !in GrantMaps(ues)
  }

  lemma {:induction false} WorldIsHarqApart(vrb: array<bool>, ues: seq<UeSchedulingInfo>, macs: seq<UeMacRibInfo>)
    requires World(vrb, ues, macs)
    ensures HarqApart(vrb, ues, macs)
  {
    forall j | 0 <= j < |ues|
      ensures ues[j].rballocSub in ues[j].Maps()
    {
    }
  }

  lemma {:induction false} SentUntouched(vrb: array<bool>, ues: seq<UeSchedulingInfo>, macs: seq<UeMacRibInfo>, i: nat,
                                         m: array<bool>)
    requires World(vrb, ues, macs) && i < |ues| && m in ues[i].rballocSubScheduled
    ensures m != vrb && m !in GrantMaps(ues)
  {
    assert m in ues[i].Maps();
    forall j | 0 <= j < |ues|
      ensures m != ues[j].rballocSub
    {
      assert ues[j].rballocSub in ues[j].Maps();
      assert j == i ==> ues[j].rballocSub !in ues[j].rballocSubScheduled;
    }
  }

  function Permuted<T>(order: seq<nat>, s: seq<T>): (r: seq<T>)
    requires forall k | 0 <= k < |order| :: order[k] < |s|
    ensures |r| == |order| && forall k | 0 <= k < |order| :: r[k] == s[order[k]]
  {
    seq(|order|, k requires 0 <= k < |order| => s[order[k]])
  }

  lemma {:induction false} WorldPermuted(vrb: array<bool>, ues: seq<UeSchedulingInfo>, macs: seq<UeMacRibInfo>,
                                         order: seq<nat>)
    requires World(vrb, ues, macs) && IsPermutation(order, |ues|)
    ensures World(vrb, Permuted(order, ues), Permuted(order, macs))
  {
  }

  lemma {:induction false} SortedIsApart(vrb: array<bool>, ues: seq<UeSchedulingInfo>, macs: seq<UeMacRibInfo>,
                                         order: seq<nat>)
    requires World(vrb, ues, macs) && IsPermutation(order, |ues|)
    ensures Separate(vrb, Permuted(order, ues)) && HarqApart(vrb, Permuted(order, ues), Permuted(order, macs))
    ensures GrantMaps(Permuted(order, ues)) == GrantMaps(ues)
  {
    WorldPermuted(vrb, ues, macs, order);
    WorldIsSeparate(vrb, Permuted(order, ues), Permuted(order, macs));
    WorldIsHarqApart(vrb, Permuted(order, ues), Permuted(order, macs));
    MapsPermuted(ues, order);
  }

  lemma {:induction false} AllSentUntouched(vrb: array<bool>, ues: seq<UeSchedulingInfo>, macs: seq<UeMacRibInfo>)
    requires World(vrb, ues, macs)
    ensures vrb !in SentMaps(ues) && SentMaps(ues) !! GrantMaps(ues)
  {
    forall i, m | 0 <= i < |ues| && m in ues[i].rballocSubScheduled
      ensures m != vrb && m !in GrantMaps(ues)
    {
      SentUntouched(vrb, ues, macs, i, m);
    }
  }

  lemma {:induction false} MapsPermuted(ues: seq<UeSchedulingInfo>, order: seq<nat>)
    requires IsPermutation(order, |ues|)
    ensures GrantMaps(Permuted(order, ues)) == GrantMaps(ues)
  {
    var sorted := Permuted(order, ues);
    forall i | 0 <= i < |ues|
      ensures ues[i].rballocSub in GrantMaps(sorted)
    {
      assert i in order;
      var k :| 0 <= k < |order| && order[k] == i;
      assert sorted[k] == ues[i];
    }
    forall k | 0 <= k < |sorted|
      ensures sorted[k].rballocSub in GrantMaps(ues)
    {
      assert sorted[k] == ues[order[k]];
    }
  }

  function OpenedAll(t: TbsTable, bw: Bandwidth, us: seq<UeState>, reports: seq<UeReport>): (r: seq<UeState>)
    requires |us| == |reports| && forall i | 0 <= i < |reports| :: ReportOk(reports[i])
    ensures AllOpened(t, bw, us, reports, r)
  {
    seq(|us|, i requires 0 <= i < |us| => Opened(t, bw, us[i], reports[i]))
  }

  function ChosenAll(us: seq<UeState>): (r: seq<UeState>)
    ensures AllChosen(us, r)
  {
    seq(|us|, i requires 0 <= i < |us| => Chosen(us[i]))
  }

  function StatsAll(us: seq<UeState>, reports: seq<UeReport>): (r: seq<UeStats>)
    requires |us| == |reports|
    ensures |r| == |us| && forall i | 0 <= i < |us| :: r[i] == StatsOf(us[i].harq, reports[i])
  {
    seq(|us|, i requires 0 <= i < |us| => StatsOf(us[i].harq, reports[i]))
  }

  /** The figures one UE is ordered by. */
  method CollectStats(mac: UeMacRibInfo, r: UeReport) returns (s: UeStats)
    requires mac.Shaped()
    ensures s == StatsOf(mac.GetHarq(), r)
  {
    s := UeStats(0, 0, 0, 0, 0);
    var harqPid := mac.GetNextAvailableHarq();
    if harqPid == -1 {
      return;
    }
    var ccch, total, hol := 0, 0, 0;
    for j := 0 to |r.rlc|
      invariant ccch == CcchBytes(r.rlc[..j]) && total == QueuedBytes(r.rlc[..j]) && hol == MaxHolDelay(r.rlc[..j])
    {
      assert r.rlc[..j + 1][..j] == r.rlc[..j];
      var l := r.rlc[j];
      if l.lcId == 1 || l.lcId == 2 {
        ccch := ccch + l.txQueueSize;
      }
      total := total + l.txQueueSize;
      hol := if hol >= l.holDelay then hol else l.holDelay;
    }
    assert r.rlc[..|r.rlc|] == r.rlc;
    s := UeStats(mac.harqStats[harqPid], ccch, hol, total, if r.wbCqi.Some? then r.wbCqi.value else 0);
  }

  /** The serving order of the UEs. */
  method SortedUes(macs: seq<UeMacRibInfo>, reports: seq<UeReport>, ghost us: seq<UeState>) returns (order: seq<nat>)
    requires |macs| == |reports| == |us|
    requires forall i | 0 <= i < |macs| :: macs[i].Shaped() && macs[i].GetHarq() == us[i].harq
    ensures IsPermutation(order, |us|) && IsOrdered(StatsAll(us, reports), order)
  {
    var stats := [];
    for i := 0 to |macs|
      invariant |stats| == i && forall k | 0 <= k < i :: stats[k] == StatsOf(us[k].harq, reports[k])
    {
      var s := CollectStats(macs[i], reports[i]);
      stats := stats + [s];
    }
    assert stats == StatsAll(us, reports);
    order := SortUes(stats);
  }

  /** The preprocessor as a relation on values: `order` is the serving order it used. */
  ghost predicate Preprocessed(t: TbsTable, bw: Bandwidth, vrb: RbgMap, us: seq<UeState>, reports: seq<UeReport>,
                               order: seq<nat>, vrb': RbgMap, us': seq<UeState>)
    requires |us| == |reports| && forall i | 0 <= i < |reports| :: ReportOk(reports[i])
  {
    var sized := OpenedAll(t, bw, us, reports);
    && IsPermutation(order, |us|) && IsOrdered(StatsAll(sized, reports), order) && |us'| == |us|
    && var served := ChosenAll(Permuted(order, sized));
       var d := GrantedCell(bw, vrb, served);
       vrb' == d.vrb && Permuted(order, us') == Updated(served, d.ues)
  }

  /** HARQ choice, shares and both rounds, for UEs in serving order. */
  method ServeInOrder(bw: Bandwidth, vrb: array<bool>, ues: seq<UeSchedulingInfo>, macs: seq<UeMacRibInfo>,
                      ghost us: seq<UeState>, ghost served: seq<UeState>, ghost d: Cell)
    requires Separate(vrb, ues) && HarqApart(vrb, ues, macs) && Mirrors(ues, macs, us)
    requires AllChosen(us, served) && d == GrantedCell(bw, vrb[..], served)
    modifies vrb, GrantMaps(ues)
    modifies ues`nbRbsRequired, ues`nbScheduledRbs
    modifies ues`nbRbsRequiredRemaining, ues`nbRbsRequiredRemaining1, ues`preNbRbsAvailable
    ensures vrb[..] == d.vrb && |d.ues| == |served| && Mirrors(ues, macs, Updated(served, d.ues))
  {
    ghost var reserved := vrb[..];
    var active := ChooseHarqs(vrb, ues, macs, us, served);
    ghost var c := Cell(reserved, AllocsOf(served));
    assert Matches(vrb, ues, c);
    GrantRbs(bw, vrb, ues, macs, active, served, c, d);
    MirrorsParts(vrb, ues, macs, served, d);
  }

  /** From states in serving order back to states in configuration order. */
  lemma {:induction false} Unsort(ues: seq<UeSchedulingInfo>, macs: seq<UeMacRibInfo>, order: seq<nat>,
                                  us: seq<UeState>)
    returns (r: seq<UeState>)
    requires |ues| == |macs| == |us| && IsPermutation(order, |ues|)
    requires Mirrors(Permuted(order, ues), Permuted(order, macs), us)
    ensures Mirrors(ues, macs, r) && Permuted(order, r) == us
  {
    var place: seq<nat> := Inverse(order, |ues|);
    r := seq(|us|, i requires 0 <= i < |us| => us[place[i]]);
    forall i | 0 <= i < |ues|
      ensures Holds(ues[i], macs[i], r[i])
    {
      assert Permuted(order, ues)[place[i]] == ues[i] && Permuted(order, macs)[place[i]] == macs[i];
    }
    forall k | 0 <= k < |order|
      ensures r[order[k]] == us[k]
    {
      assert place[order[k]] == k;
    }
  }

  ghost function Inverse(order: seq<nat>, n: nat): (place: seq<nat>)
    requires IsPermutation(order, n)
    ensures |place| == n && forall i | 0 <= i < n :: place[i] < n && order[place[i]] == i
    ensures forall k | 0 <= k < n :: place[order[k]] == k
  {
    assert forall i: nat | i < n :: i in order;
    seq(n, i requires 0 <= i < n => PlaceOf(order, i))
  }

  ghost function PlaceOf(order: seq<nat>, i: nat): (k: nat)
    requires i in order
    ensures k < |order| && order[k] == i
  {
    var k :| 0 <= k < |order| && order[k] == i;
    k
  }

  /** The preprocessor of one cell, for any content of its map. */
  method RunDlschSchedulerPreprocessor(t: TbsTable, bw: Bandwidth, vrb: array<bool>, ues: seq<UeSchedulingInfo>,
                                       macs: seq<UeMacRibInfo>, reports: seq<UeReport>, ghost us: seq<UeState>)
    returns (order: seq<nat>, ghost us': seq<UeState>)
    requires World(vrb, ues, macs) && Mirrors(ues, macs, us)
    requires |reports| == |ues| && forall i | 0 <= i < |reports| :: ReportOk(reports[i])
    modifies vrb, AllMaps(ues)
    modifies ues`nbRbsRequired, ues`nbRbsRequiredRemaining, ues`nbRbsRequiredRemaining1, ues`preNbRbsAvailable
    modifies ues`highPriority, ues`nbScheduledRbs
    ensures Preprocessed(t, bw, old(vrb[..]), us, reports, order, vrb[..], us')
    ensures Mirrors(ues, macs, us') && NothingSentIn(ues, 0, |ues|)
  {
    ghost var sized := OpenedAll(t, bw, us, reports);
    SizeAll(t, bw, vrb, ues, macs, reports, us, sized);
    order := SortedUes(macs, reports, sized);
    us' := ServeAll(bw, vrb, ues, macs, order, sized);
  }

  /** Sizing leaves the cell's map alone. */
  method SizeAll(t: TbsTable, bw: Bandwidth, vrb: array<bool>, ues: seq<UeSchedulingInfo>, macs: seq<UeMacRibInfo>,
                 reports: seq<UeReport>, ghost us: seq<UeState>, ghost sized: seq<UeState>)
    requires World(vrb, ues, macs) && Mirrors(ues, macs, us) && AllOpened(t, bw, us, reports, sized)
    modifies ues`nbRbsRequired, ues`nbRbsRequiredRemaining, ues`nbRbsRequiredRemaining1, ues`preNbRbsAvailable
    modifies ues`highPriority, AllMaps(ues)
    ensures vrb[..] == old(vrb[..])
    ensures Mirrors(ues, macs, sized) && NothingSentIn(ues, 0, |ues|)
  {
    SizeDemands(t, bw, vrb, ues, macs, reports, us, sized);
    assert vrb !in AllMaps(ues);
  }

  /** The steps that go by serving order write no map of sent groups. */
  method ServeKeepingSent(bw: Bandwidth, vrb: array<bool>, ues: seq<UeSchedulingInfo>,
                          sorted: seq<UeSchedulingInfo>, macs: seq<UeMacRibInfo>,
                          ghost us: seq<UeState>, ghost served: seq<UeState>, ghost d: Cell)
    requires Separate(vrb, sorted) && HarqApart(vrb, sorted, macs) && Mirrors(sorted, macs, us)
    requires AllChosen(us, served) && d == GrantedCell(bw, vrb[..], served)
    requires forall i | 0 <= i < |ues| :: ues[i].Shaped()
    requires vrb !in SentMaps(ues) && SentMaps(ues) !! GrantMaps(sorted) && NothingSentIn(ues, 0, |ues|)
    modifies vrb, GrantMaps(sorted)
    modifies sorted`nbRbsRequired, sorted`nbScheduledRbs
    modifies sorted`nbRbsRequiredRemaining, sorted`nbRbsRequiredRemaining1, sorted`preNbRbsAvailable
    ensures vrb[..] == d.vrb && |d.ues| == |served| && Mirrors(sorted, macs, Updated(served, d.ues))
    ensures NothingSentIn(ues, 0, |ues|)
  {
    ServeInOrder(bw, vrb, sorted, macs, us, served, d);
  }

  /** The steps that go by serving order; nothing is marked as sent by them. */
  method ServeAll(bw: Bandwidth, vrb: array<bool>, ues: seq<UeSchedulingInfo>, macs: seq<UeMacRibInfo>,
                  order: seq<nat>, ghost sized: seq<UeState>) returns (ghost us': seq<UeState>)
    requires World(vrb, ues, macs) && Mirrors(ues, macs, sized) && NothingSentIn(ues, 0, |ues|)
    requires IsPermutation(order, |ues|)
    modifies vrb, GrantMaps(ues)
    modifies ues`nbRbsRequired, ues`nbScheduledRbs
    modifies ues`nbRbsRequiredRemaining, ues`nbRbsRequiredRemaining1, ues`preNbRbsAvailable
    ensures |us'| == |ues| && Mirrors(ues, macs, us') && NothingSentIn(ues, 0, |ues|)
    ensures
      var served := ChosenAll(Permuted(order, sized));
      var d := GrantedCell(bw, old(vrb[..]), served);
      vrb[..] == d.vrb && Permuted(order, us') == Updated(served, d.ues)
  {
    var sorted, sortedMacs := Permuted(order, ues), Permuted(order, macs);
    SortedIsApart(vrb, ues, macs, order);
    AllSentUntouched(vrb, ues, macs);
    ghost var served := ChosenAll(Permuted(order, sized));
    ghost var d := GrantedCell(bw, vrb[..], served);
    ServeKeepingSent(bw, vrb, ues, sorted, sortedMacs, Permuted(order, sized), served, d);
    us' := Unsort(ues, macs, order, Updated(served, d.ues));
  }
}
