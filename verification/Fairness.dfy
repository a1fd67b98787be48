/** What every UE of a cell is sure of, however many compete. */
module Fairness {
  import opened Primitives
  import opened UeScheduling
  import opened Allocation
  import opened Preprocessor
  import opened PreprocessorRun
  import opened PolicyRun
  import opened RoundProofs
  import opened Retransmissions
  import opened ServingOrder

  // ---------- what a turn takes from the map ----------

  lemma {:induction false} SameFree(v: RbgMap, v': RbgMap, n: nat)
    requires n <= N_RBG_MAX && forall i | 0 <= i < n :: v[i] == v'[i]
    ensures FreeBelow(v, n) == FreeBelow(v', n)
  {
    if n == 0 {
    } else {
      SameFree(v, v', n - 1);
    }
  }

  lemma {:induction false} FullTurnTakes(bw: Bandwidth, n: nat, t: Turn, target: nat)
    requires n <= FullGroups(bw) && Sound(bw, t, target) && target <= t.ue.required
    ensures var free := FreeBelow(t.vrb, n);
      FreeBelow(OfferAll(bw, n, t).vrb, n) == free - Least(free, t.ue.remaining / MinRbUnit(bw))
  {
    if n == 0 {
    } else {
      FullTurnTakes(bw, n - 1, t, target);
      FullTurn(bw, n - 1, t, target);
      OneOfferTakes(bw, n - 1, t, OfferAll(bw, n - 1, t), target);
    }
  }

  lemma {:induction false} OneOfferTakes(bw: Bandwidth, n: nat, t: Turn, s: Turn, target: nat)
    requires n < FullGroups(bw) && Sound(bw, t, target) && target <= t.ue.required
    requires Filled(bw, t.ue, s.ue, FreeBelow(t.vrb, n)) && Untouched(n, t, s)
    requires var free := FreeBelow(t.vrb, n);
      FreeBelow(s.vrb, n) == free - Least(free, t.ue.remaining / MinRbUnit(bw))
    ensures var free := FreeBelow(t.vrb, n + 1);
      FreeBelow(Offer(bw, n, s).vrb, n + 1) == free - Least(free, t.ue.remaining / MinRbUnit(bw))
  {
    FullGroupsFit(MinRbUnit(bw), t.ue.remaining, Least(FreeBelow(t.vrb, n), t.ue.remaining / MinRbUnit(bw)));
    FullOfferExact(bw, n, s);
    SameFree(s.vrb, Offer(bw, n, s).vrb, n);
  }

  /** A turn takes no more full groups than what the UE may take is worth. */
  lemma {:induction false} TurnTakes(bw: Bandwidth, t: Turn, target: nat)
    requires Sound(bw, t, target) && target <= t.ue.required
    ensures FreeFull(bw, OfferAll(bw, NbRbg(bw), t).vrb) >= FreeFull(bw, t.vrb) - t.ue.remaining / MinRbUnit(bw)
  {
    var n := FullGroups(bw);
    FullTurnTakes(bw, n, t, target);
    if n < NbRbg(bw) {
      OneMoreOffer(bw, n, t);
      SameFree(OfferAll(bw, n, t).vrb, Offer(bw, n, OfferAll(bw, n, t)).vrb, n);
    }
  }

  // ---------- the first round among UEs of low priority ----------

  /** How many of the first `n` UEs want something. */
  function WantingBefore(ues: seq<Alloc>, n: nat): (m: nat)
    requires n <= |ues|
    ensures m <= n
  {
    if n == 0 then 0 else WantingBefore(ues, n - 1) + (if ues[n - 1].required > 0 then 1 else 0)
  }

  /** Everybody is of low priority and may take up to `a` blocks in the first round. */
  ghost predicate LowWithShares(c: Cell, a: nat) {
    forall j | 0 <= j < |c.ues| ::
      !c.ues[j].high && (c.ues[j].required > 0 ==> c.ues[j].remaining1 == Least(a, c.ues[j].required))
  }

  /** Blocks rounded down to whole groups. */
  function Whole(bw: Bandwidth, blocks: nat): nat {
    blocks - blocks % MinRbUnit(bw)
  }

  lemma {:induction false} FewerGroups(bw: Bandwidth, s: nat, a: nat)
    requires s <= a
    ensures s / MinRbUnit(bw) <= a / MinRbUnit(bw)
  {
  }

  /** The full groups that the first `n` UEs may take, `q` each. */
  function MayTake(ues: seq<Alloc>, n: nat, q: nat): nat
    requires n <= |ues|
  {
    if n == 0 then 0 else MayTake(ues, n - 1, q) + (if ues[n - 1].required > 0 then q else 0)
  }

  lemma {:induction false} MayTakeIs(ues: seq<Alloc>, n: nat, q: nat)
    requires n <= |ues|
    ensures MayTake(ues, n, q) == WantingBefore(ues, n) * q
  {
    if n == 0 {
    } else {
      MayTakeIs(ues, n - 1, q);
      OneMore(WantingBefore(ues, n - 1), q);
    }
  }

  lemma {:induction false} OneMore(m: nat, q: nat)
    ensures (m + 1) * q == m * q + q
  {
  }

  /** Each UE that had its turn leaves all but its share of the full groups. */
  lemma {:induction false} PassLeaves(bw: Bandwidth, reserved: RbgMap, c: Cell, p: Cell, a: nat, n: nat)
    requires Opening(bw, reserved, c) && LowWithShares(c, a) && n <= |c.ues|
    requires p == Cell(c.vrb, PrepareAll(false, c.ues))
    ensures FreeFull(bw, Pass(bw, false, n, p).vrb) >= FreeFull(bw, c.vrb) - MayTake(c.ues, n, a / MinRbUnit(bw))
  {
    if n == 0 {
    } else {
      PassLeaves(bw, reserved, c, p, a, n - 1);
      OneTurnLeaves(bw, reserved, c, p, a, n - 1);
    }
  }

  lemma {:induction false} OneTurnLeaves(bw: Bandwidth, reserved: RbgMap, c: Cell, p: Cell, a: nat, n: nat)
    requires Opening(bw, reserved, c) && LowWithShares(c, a) && n < |c.ues|
    requires p == Cell(c.vrb, PrepareAll(false, c.ues))
    ensures FreeFull(bw, Pass(bw, false, n + 1, p).vrb)
         >= FreeFull(bw, Pass(bw, false, n, p).vrb) - (if c.ues[n].required > 0 then a / MinRbUnit(bw) else 0)
  {
    PrepareFacts(bw, reserved, false, c);
    PassFacts(bw, reserved, false, false, n, p);
    PassSkips(bw, false, n, p);
    LastTurn(bw, false, n + 1, p, Pass(bw, false, n, p), Pass(bw, false, n + 1, p));
    var d := Pass(bw, false, n, p);
    if c.ues[n].required > 0 {
      TurnTakes(bw, Turn(d.vrb, d.ues[n]), c.ues[n].remaining1);
      FewerGroups(bw, c.ues[n].remaining1, a);
    }
  }

  lemma {:induction false} GrantOfShare(bw: Bandwidth, v: RbgMap, share: nat)
    requires FreeFull(bw, v) >= share / MinRbUnit(bw)
    ensures FirstGrant(bw, v, share) >= Whole(bw, share)
  {
    FullGroupsFit(MinRbUnit(bw), share, share / MinRbUnit(bw));
  }

  /** A UE gets the full groups of its share as long as those before it cannot have taken too many. */
  lemma {:induction false} ShareIsGranted(bw: Bandwidth, reserved: RbgMap, active: nat, c: Cell, a: nat, j: nat)
    requires Opening(bw, reserved, c) && LowWithShares(c, a) && active > 0 && j < |c.ues| && c.ues[j].required > 0
    requires MayTake(c.ues, j, a / MinRbUnit(bw)) + a / MinRbUnit(bw) <= FreeFull(bw, c.vrb)
    ensures Allocate(bw, active, c).ues[j].available >= Whole(bw, Least(a, c.ues[j].required))
  {
    var p := Cell(c.vrb, PrepareAll(false, c.ues));
    NobodyServed(bw, true, |p.ues|, p);
    PassLeaves(bw, reserved, c, p, a, j);
    FewerGroups(bw, c.ues[j].remaining1, a);
    GrantOfShare(bw, TurnMap(bw, false, c, j), c.ues[j].remaining1);
    FirstRoundGrants(bw, reserved, active, c, j);
    RoundFacts(bw, reserved, false, active, c);
    RoundFacts(bw, reserved, true, active, Round(bw, false, active, c));
  }

  // ---------- counting ----------

  lemma {:induction false} WantingIsActive(us: seq<UeState>, c: seq<Alloc>, n: nat)
    requires n <= |us| == |c|
    requires forall i | 0 <= i < |us| :: c[i].required > 0 <==> IsActive(us[i].alloc, us[i].harq)
    ensures WantingBefore(c, n) == ActiveCount(us, n)
  {
    if n == 0 {
    } else {
      WantingIsActive(us, c, n - 1);
    }
  }

  lemma {:induction false} WantingGrows(ues: seq<Alloc>, j: nat, n: nat)
    requires j < n <= |ues| && ues[j].required > 0
    ensures WantingBefore(ues, j) + 1 <= WantingBefore(ues, n)
  {
    if j == n - 1 {
    } else {
      WantingGrows(ues, j, n - 1);
    }
  }

  /** The UEs with a demand after the preprocessor. */
  ghost function Demanding(mid: seq<UeState>): set<nat> {
    set i: nat | i < |mid| && mid[i].alloc.required > 0
  }

  /** Those of the first `n` places of the order. */
  ghost function DemandingAt(order: seq<nat>, ues: seq<Alloc>, n: nat): set<nat>
    requires n <= |order| == |ues|
  {
    set k | 0 <= k < n && ues[k].required > 0 :: order[k]
  }

  lemma {:induction false} DemandingSize(order: seq<nat>, ues: seq<Alloc>, n: nat)
    requires n <= |order| == |ues| && forall i, j | 0 <= i < j < |order| :: order[i] != order[j]
    ensures |DemandingAt(order, ues, n)| == WantingBefore(ues, n)
  {
    if n == 0 {
      assert DemandingAt(order, ues, n) == {};
    } else {
      DemandingSize(order, ues, n - 1);
      var before := DemandingAt(order, ues, n - 1);
      assert DemandingAt(order, ues, n) == before + (if ues[n - 1].required > 0 then {order[n - 1]} else {});
      assert order[n - 1] !in before;
    }
  }

  // ---------- a round ----------

  /** Nobody is of high priority, and everybody who wants something has a free process. */
  ghost predicate LowOnly(us: seq<UeState>, mid: seq<UeState>) {
    && |us| == |mid|
    && (forall j | 0 <= j < |mid| :: !mid[j].alloc.high)
    && forall j | 0 <= j < |mid| && mid[j].alloc.required > 0 :: NextHarq(us[j].harq, 0) != -1
  }

  /** Those that were served before the UE at place `k` and want something. */
  ghost function ServedBefore(order: seq<nat>, mid: seq<UeState>, k: nat): set<nat>
    requires k <= |order| && forall l | 0 <= l < |order| :: order[l] < |mid|
  {
    set l | 0 <= l < k && mid[order[l]].alloc.required > 0 :: order[l]
  }

  /** A share of `n`. */
  function Part(blocks: nat, n: nat): nat {
    if n == 0 then 0 else blocks / n
  }

  /** There is a group for each of `n`. */
  predicate HasRoomFor(bw: Bandwidth, n: nat) {
    MinRbUnit(bw) * n <= bw
  }

  lemma {:induction false} AverageIs(bw: Bandwidth, n: nat)
    ensures AverageRbs(bw, n) == if HasRoomFor(bw, n) then Part(bw, n) else MinRbUnit(bw)
  {
  }

  lemma {:induction false} LowShares(bw: Bandwidth, v: RbgMap, served: seq<UeState>, a: nat)
    requires forall k | 0 <= k < |served| :: !served[k].alloc.high
    requires a == AverageRbs(bw, ActiveCount(served, |served|))
    ensures LowWithShares(OpeningCell(bw, v, served), a)
  {
  }

  /** The UEs in serving order, as the rounds meet them and leave them. */
  ghost predicate IsLowCell(bw: Bandwidth, order: seq<nat>, mid: seq<UeState>, a: nat, c: Cell, active: nat)
    requires IsPermutation(order, |mid|)
  {
    && |c.ues| == |order| && Opening(bw, EmptyMap(), c) && LowWithShares(c, a)
    && (forall k | 0 <= k < |order| ::
      mid[order[k]].alloc == Allocate(bw, active, c).ues[k] && c.ues[k].required == mid[order[k]].alloc.required)
    && active == WantingBefore(c.ues, |c.ues|) == |Demanding(mid)|
  }

  lemma {:induction false} CellOfLow(t: TbsTable, bw: Bandwidth, us: seq<UeState>, reports: seq<UeReport>,
                                     order: seq<nat>, vrb': RbgMap, mid: seq<UeState>, a: nat)
    returns (c: Cell, active: nat)
    requires |us| == |reports| && (forall i | 0 <= i < |reports| :: ReportOk(reports[i])) && RecordsFit(bw, us)
    requires Preprocessed(t, bw, EmptyMap(), us, reports, order, vrb', mid) && LowOnly(us, mid)
    requires a == if HasRoomFor(bw, |Demanding(mid)|) then Part(bw, |Demanding(mid)|) else MinRbUnit(bw)
    ensures IsLowCell(bw, order, mid, a, c, active)
  {
    var served := ChosenAll(Permuted(order, OpenedAll(t, bw, us, reports)));
    active, c := ActiveCount(served, |served|), OpeningCell(bw, EmptyMap(), served);
    OpeningHolds(t, bw, EmptyMap(), us, reports, order);
    forall k | 0 <= k < |order|
      ensures ServedLow(us, mid, served, c, Allocate(bw, active, c), order[k], k)
    {
      IsServedLow(t, bw, us, reports, order, mid, served, c, active, k);
    }
    LowCellFrom(bw, us, order, mid, served, a, c, active);
  }

  lemma {:induction false} LowCellFrom(bw: Bandwidth, us: seq<UeState>, order: seq<nat>, mid: seq<UeState>,
                                       served: seq<UeState>, a: nat, c: Cell, active: nat)
    requires |us| == |mid| == |served| && IsPermutation(order, |mid|)
    requires active == ActiveCount(served, |served|) && c == OpeningCell(bw, EmptyMap(), served)
    requires Opening(bw, EmptyMap(), c) && |Allocate(bw, active, c).ues| == |served|
    requires forall k | 0 <= k < |order| :: ServedLow(us, mid, served, c, Allocate(bw, active, c), order[k], k)
    requires a == if HasRoomFor(bw, |Demanding(mid)|) then Part(bw, |Demanding(mid)|) else MinRbUnit(bw)
    ensures IsLowCell(bw, order, mid, a, c, active)
  {
    var d := Allocate(bw, active, c);
    CountLow(us, order, mid, served, c, d);
    AverageIs(bw, active);
    forall k | 0 <= k < |served|
      ensures !served[k].alloc.high
    {
      assert ServedLow(us, mid, served, c, d, order[k], k);
    }
    LowShares(bw, EmptyMap(), served, a);
  }

  lemma {:induction false} IsServedLow(t: TbsTable, bw: Bandwidth, us: seq<UeState>, reports: seq<UeReport>,
                                       order: seq<nat>, mid: seq<UeState>, served: seq<UeState>, c: Cell, active: nat,
                                       k: nat)
    requires |us| == |reports| == |mid| && forall i | 0 <= i < |reports| :: ReportOk(reports[i])
    requires IsPermutation(order, |us|) && k < |order| && LowOnly(us, mid)
    requires served == ChosenAll(Permuted(order, OpenedAll(t, bw, us, reports)))
    requires c == OpeningCell(bw, EmptyMap(), served) && Opening(bw, EmptyMap(), c)
    requires Permuted(order, mid) == Updated(served, Allocate(bw, active, c).ues)
    ensures ServedLow(us, mid, served, c, Allocate(bw, active, c), order[k], k)
  {
    OneServed(bw, EmptyMap(), active, order, mid, served, c, k);
    assert served[k] == Chosen(Opened(t, bw, us[order[k]], reports[order[k]]));
    CountsIfItWants(served[k].alloc, served[k].harq);
  }

  lemma {:induction false} CountsIfItWants(a: Alloc, h: Harq)
    requires a.required > 0 ==> NextHarq(h, 0) != -1
    ensures IsActive(a, h) <==> a.required > 0
  {
  }

  lemma {:induction false} CountLow(us: seq<UeState>, order: seq<nat>, mid: seq<UeState>, served: seq<UeState>, c: Cell,
                                    d: Cell)
    requires |us| == |mid| == |served| == |c.ues| == |d.ues| && IsPermutation(order, |mid|)
    requires forall k | 0 <= k < |order| :: ServedLow(us, mid, served, c, d, order[k], k)
    ensures ActiveCount(served, |served|) == WantingBefore(c.ues, |c.ues|) == |Demanding(mid)|
  {
    forall k | 0 <= k < |order|
      ensures c.ues[k].required > 0 <==> IsActive(served[k].alloc, served[k].harq)
      ensures c.ues[k].required == mid[order[k]].alloc.required
    {
      assert ServedLow(us, mid, served, c, d, order[k], k);
    }
    WantingIsActive(served, c.ues, |served|);
    DemandingSize(order, c.ues, |order|);
    AllDemand(order, c.ues, mid);
  }

  ghost predicate ServedLow(us: seq<UeState>, mid: seq<UeState>, served: seq<UeState>, c: Cell, d: Cell, i: nat, k: nat)
    requires i < |us| == |mid| && k < |served| == |c.ues| == |d.ues|
  {
    && mid[i].alloc == d.ues[k] && c.ues[k].required == mid[i].alloc.required == served[k].alloc.required
    && !served[k].alloc.high
    && (c.ues[k].required > 0 <==> IsActive(served[k].alloc, served[k].harq))
  }

  lemma {:induction false} AllDemand(order: seq<nat>, ues: seq<Alloc>, mid: seq<UeState>)
    requires IsPermutation(order, |mid|) && |ues| == |order|
    requires forall k | 0 <= k < |order| :: ues[k].required == mid[order[k]].alloc.required
    ensures DemandingAt(order, ues, |order|) == Demanding(mid)
  {
    forall i: nat | i in Demanding(mid)
      ensures i in DemandingAt(order, ues, |order|)
    {
      var k := PlaceOf(order, i);
      assert ues[k].required > 0;
    }
  }

  /** The full groups are enough for `k` shares of `q` groups. */
  lemma {:induction false} SharesFit(bw: Bandwidth, k: nat, x: nat, q: nat, m: nat)
    requires m < k && k * x <= bw && MinRbUnit(bw) * q <= x
    ensures m * q + q <= FullGroups(bw)
  {
    QuotientFits(bw, k, x, MinRbUnit(bw), q);
    AtMost(m + 1, k, q);
    OneMore(m, q);
    GroupsInCell(bw, k * q);
  }

  lemma {:induction false} PartFits(b: nat, k: nat)
    ensures k * Part(b, k) <= b
  {
  }

  lemma {:induction false} GroupsFit(bw: Bandwidth, x: nat)
    ensures MinRbUnit(bw) * (x / MinRbUnit(bw)) <= x
  {
  }

  lemma {:induction false} QuotientFits(b: nat, k: nat, x: nat, unit: nat, q: nat)
    requires k * x <= b && unit * q <= x
    ensures unit * (k * q) <= b
  {
    assert unit * (k * q) == k * (unit * q);
    AtMost(unit * q, x, k);
  }

  lemma {:induction false} AtMost(a: nat, b: nat, q: nat)
    requires a <= b
    ensures a * q <= b * q
  {
  }

  lemma {:induction false} GroupsInCell(bw: Bandwidth, n: nat)
    requires MinRbUnit(bw) * n <= bw
    ensures n <= FullGroups(bw)
  {
  }

  lemma {:induction false} EmptyCellIsFree(bw: Bandwidth)
    ensures FreeFull(bw, EmptyMap()) == FullGroups(bw)
  {
    AllFree(FullGroups(bw));
  }

  /**
   * In an empty cell without UEs of high priority, k UEs that want something each get at least the full groups that
   * fit the k-th part of the cell, or that fit their demand if it is smaller, whatever the order.
   */
  lemma {:induction false} EveryoneGetsAShare(t: TbsTable, bw: Bandwidth, us: seq<UeState>, reports: seq<UeReport>,
                                              order: seq<nat>, vrb': RbgMap, mid: seq<UeState>, i: nat, n: nat)
    requires |us| == |reports| && (forall i | 0 <= i < |reports| :: ReportOk(reports[i])) && RecordsFit(bw, us)
    requires Preprocessed(t, bw, EmptyMap(), us, reports, order, vrb', mid) && LowOnly(us, mid)
    requires i in Demanding(mid) && n == |Demanding(mid)| && HasRoomFor(bw, n)
    ensures mid[i].alloc.available >= Whole(bw, Least(Part(bw, n), mid[i].alloc.required))
  {
    var c, active := CellOfLow(t, bw, us, reports, order, vrb', mid, Part(bw, n));
    var k := PlaceOf(order, i);
    CellShare(bw, c, active, n, k);
  }

  lemma {:induction false} CellShare(bw: Bandwidth, c: Cell, active: nat, n: nat, k: nat)
    requires active == WantingBefore(c.ues, |c.ues|) == n
    requires Opening(bw, EmptyMap(), c) && LowWithShares(c, Part(bw, n)) && k < |c.ues| && c.ues[k].required > 0
    ensures Allocate(bw, active, c).ues[k].available >= Whole(bw, Least(Part(bw, n), c.ues[k].required))
  {
    var x := Part(bw, n);
    var q := x / MinRbUnit(bw);
    WantingGrows(c.ues, k, |c.ues|);
    PartFits(bw, n);
    GroupsFit(bw, x);
    SharesFit(bw, n, x, q, WantingBefore(c.ues, k));
    MayTakeIs(c.ues, k, q);
    EmptyCellIsFree(bw);
    ShareIsGranted(bw, EmptyMap(), active, c, x, k);
  }

  /**
   * Where there are more than that, as many as there are full groups get one each, in serving order, if they want as
   * much.
   */
  lemma {:induction false} FirstOnesGetAGroup(t: TbsTable, bw: Bandwidth, us: seq<UeState>, reports: seq<UeReport>,
                                              order: seq<nat>, vrb': RbgMap, mid: seq<UeState>, k: nat)
    requires |us| == |reports| && (forall i | 0 <= i < |reports| :: ReportOk(reports[i])) && RecordsFit(bw, us)
    requires Preprocessed(t, bw, EmptyMap(), us, reports, order, vrb', mid) && LowOnly(us, mid) && k < |order|
    requires !HasRoomFor(bw, |Demanding(mid)|) && mid[order[k]].alloc.required >= MinRbUnit(bw)
    requires |ServedBefore(order, mid, k)| < FullGroups(bw)
    ensures mid[order[k]].alloc.available >= MinRbUnit(bw)
  {
    var c, active := CellOfLow(t, bw, us, reports, order, vrb', mid, MinRbUnit(bw));
    CountBefore(order, c.ues, mid, k);
    CellGroup(bw, c, active, k);
  }

  lemma {:induction false} CountBefore(order: seq<nat>, ues: seq<Alloc>, mid: seq<UeState>, k: nat)
    requires IsPermutation(order, |mid|) && |ues| == |order| && k <= |order|
    requires forall l | 0 <= l < |order| :: ues[l].required == mid[order[l]].alloc.required
    ensures WantingBefore(ues, k) == |ServedBefore(order, mid, k)|
  {
    DemandingSize(order, ues, k);
    assert DemandingAt(order, ues, k) == ServedBefore(order, mid, k);
  }

  lemma {:induction false} CellGroup(bw: Bandwidth, c: Cell, active: nat, k: nat)
    requires active == WantingBefore(c.ues, |c.ues|) && k < |c.ues| && c.ues[k].required >= MinRbUnit(bw)
    requires Opening(bw, EmptyMap(), c) && LowWithShares(c, MinRbUnit(bw)) && WantingBefore(c.ues, k) < FullGroups(bw)
    ensures Allocate(bw, active, c).ues[k].available >= MinRbUnit(bw)
  {
    WantingGrows(c.ues, k, |c.ues|);
    MayTakeIs(c.ues, k, 1);
    EmptyCellIsFree(bw);
    ShareIsGranted(bw, EmptyMap(), active, c, MinRbUnit(bw), k);
  }

  // ---------- when nobody is ready ----------

  lemma {:induction false} NobodyCounts(us: seq<UeState>, n: nat)
    requires n <= |us| && forall i | 0 <= i < n :: !IsActive(us[i].alloc, us[i].harq)
    ensures ActiveCount(us, n) == 0
  {
    if n == 0 {
    } else {
      NobodyCounts(us, n - 1);
    }
  }

  lemma {:induction false} NobodyIsGranted(bw: Bandwidth, reserved: RbgMap, c: Cell)
    requires Opening(bw, reserved, c)
    ensures Allocate(bw, 0, c).vrb == c.vrb
    ensures forall k | 0 <= k < |c.ues| ::
      var u := Allocate(bw, 0, c).ues[k];
      u.available == 0 && IsEmpty(u.rbgs)
  {
  }

  /** While every UE lacks a free process or a demand, nothing is granted, not even to UEs with a demand. */
  lemma {:induction false} NobodyReadyNothingGranted(t: TbsTable, bw: Bandwidth, vrb: RbgMap, us: seq<UeState>,
                                                     reports: seq<UeReport>, order: seq<nat>, vrb': RbgMap,
                                                     mid: seq<UeState>)
    requires |us| == |reports| && (forall i | 0 <= i < |reports| :: ReportOk(reports[i])) && RecordsFit(bw, us)
    requires Preprocessed(t, bw, vrb, us, reports, order, vrb', mid)
    requires forall i | 0 <= i < |us| :: NoneFree(us[i].harq) || mid[i].alloc.required == 0
    ensures vrb' == vrb
    ensures forall i | 0 <= i < |us| :: mid[i].alloc.available == 0 && IsEmpty(mid[i].alloc.rbgs)
  {
    var served := ChosenAll(Permuted(order, OpenedAll(t, bw, us, reports)));
    var active, c := ActiveCount(served, |served|), OpeningCell(bw, vrb, served);
    OpeningHolds(t, bw, vrb, us, reports, order);
    forall k | 0 <= k < |served|
      ensures !IsActive(served[k].alloc, served[k].harq)
    {
      OneServed(bw, vrb, active, order, mid, served, c, k);
      assert served[k] == Chosen(Opened(t, bw, us[order[k]], reports[order[k]]));
    }
    NobodyCounts(served, |served|);
    NobodyIsGranted(bw, vrb, c);
    forall i | 0 <= i < |us|
      ensures mid[i].alloc.available == 0 && IsEmpty(mid[i].alloc.rbgs)
    {
      OneServed(bw, vrb, active, order, mid, served, c, PlaceOf(order, i));
    }
  }
}
