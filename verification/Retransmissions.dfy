/** When a pending retransmission gets its blocks: from its record, the group size and the groups that are free. */
module Retransmissions {
  import opened Options
  import opened Primitives
  import opened UeScheduling
  import opened Allocation
  import opened Preprocessor
  import opened PreprocessorRun
  import opened Policy
  import opened PolicyRun
  import opened RoundProofs

  // ---------- one turn ----------

  /** The number of groups of full size. */
  function FullGroups(bw: Bandwidth): nat {
    if bw == 25 || bw == 50 then NbRbg(bw) - 1 else NbRbg(bw)
  }

  /** How many of the first `n` groups are free. */
  function FreeBelow(v: RbgMap, n: nat): nat
    requires n <= N_RBG_MAX
  {
    if n == 0 then 0 else FreeBelow(v, n - 1) + (if v[n - 1] then 0 else 1)
  }

  /** How many groups of full size are free. */
  function FreeFull(bw: Bandwidth, v: RbgMap): nat {
    FreeBelow(v, FullGroups(bw))
  }

  predicate LastIsFreeAndShort(bw: Bandwidth, v: RbgMap) {
    (bw == 25 || bw == 50) && !v[NbRbg(bw) - 1]
  }

  /**
   * The free groups cover `nbRb` blocks: there are enough full groups for all but a remainder, and the remainder
   * fits the short last group.
   */
  predicate Covers(bw: Bandwidth, v: RbgMap, nbRb: nat) {
    && FreeFull(bw, v) >= nbRb / MinRbUnit(bw)
    && (nbRb % MinRbUnit(bw) == 0 || LastIsFreeAndShort(bw, v))
  }

  function Least(a: nat, b: nat): nat {
    if a <= b then a else b
  }

  /** What is left of a wish; the short last group may give one block more. */
  function Rest(wish: nat, granted: nat): nat {
    if granted >= wish then 0 else wish - granted
  }

  lemma {:induction false} FullGroupsFit(unit: nat, w: nat, k: nat)
    requires 1 <= unit <= 4
    ensures unit * (k + 1) == unit * k + unit
    ensures k < w / unit <==> w - unit * k >= unit
    ensures unit * (w / unit) + w % unit == w
  {
    assert unit == 1 || unit == 2 || unit == 3 || unit == 4;
  }

  /**
   * As long as only full groups are offered, and `free` of them are free, the UE takes them until less than one is
   * missing.
   */
  predicate Filled(bw: Bandwidth, before: Alloc, after: Alloc, free: nat) {
    var taken := MinRbUnit(bw) * Least(free, before.remaining / MinRbUnit(bw));
    && after.required == before.required
    && after.available == before.available + taken && after.remaining == before.remaining - taken
  }

  /** Groups from `n` on have not been touched. */
  predicate Untouched(n: nat, t: Turn, u: Turn) {
    forall i | n <= i < N_RBG_MAX :: u.vrb[i] == t.vrb[i] && u.ue.rbgs[i] == t.ue.rbgs[i]
  }

  lemma {:induction false} FullTurn(bw: Bandwidth, n: nat, t: Turn, target: nat)
    requires n <= FullGroups(bw) && Sound(bw, t, target) && target <= t.ue.required
    ensures Filled(bw, t.ue, OfferAll(bw, n, t).ue, FreeBelow(t.vrb, n))
    ensures Untouched(n, t, OfferAll(bw, n, t))
  {
    if n == 0 {
    } else {
      FullTurn(bw, n - 1, t, target);
      FullOffer(bw, n - 1, t, OfferAll(bw, n - 1, t), target);
    }
  }

  lemma {:induction false} FullOffer(bw: Bandwidth, n: nat, t: Turn, s: Turn, target: nat)
    requires n < FullGroups(bw) && Sound(bw, t, target) && target <= t.ue.required
    requires Filled(bw, t.ue, s.ue, FreeBelow(t.vrb, n)) && Untouched(n, t, s)
    ensures Filled(bw, t.ue, Offer(bw, n, s).ue, FreeBelow(t.vrb, n + 1)) && Untouched(n + 1, t, Offer(bw, n, s))
  {
    FullGroupsFit(MinRbUnit(bw), t.ue.remaining, Least(FreeBelow(t.vrb, n), t.ue.remaining / MinRbUnit(bw)));
    FullOfferExact(bw, n, s);
  }

  lemma {:induction false} FullOfferExact(bw: Bandwidth, n: nat, s: Turn)
    requires n < FullGroups(bw) && s.ue.required <= bw && (s.ue.rbgs[n] ==> s.vrb[n])
    requires s.ue.available + s.ue.remaining <= s.ue.required + (if bw == 50 then 1 else 0)
    ensures var unit := MinRbUnit(bw);
      Offer(bw, n, s) == if s.vrb[n] || s.ue.remaining < unit then s
        else Turn(s.vrb[n := true], s.ue.(
               rbgs := s.ue.rbgs[n := true],
               remaining := s.ue.remaining - unit,
               available := s.ue.available + unit))
  {
    if s.ue.remaining >= MinRbUnit(bw) {
      U16Small(s.ue.remaining - MinRbUnit(bw));
      U16Small(s.ue.available + MinRbUnit(bw));
    }
  }

  /** Is the short last group taken by a UE that has been offered all others? */
  predicate TakesLast(bw: Bandwidth, v: RbgMap, u: Alloc) {
    LastIsFreeAndShort(bw, v) && u.remaining > 0 && u.available < u.required
  }

  lemma {:induction false} LastOffer(bw: Bandwidth, n: nat, s: Turn)
    requires n == FullGroups(bw) == NbRbg(bw) - 1 && s.ue.available <= bw + 1 && (s.ue.rbgs[n] ==> s.vrb[n])
    requires s.ue.remaining <= bw + 1
    ensures var u := Offer(bw, n, s).ue;
      var last := if TakesLast(bw, s.vrb, s.ue) then MinRbUnit(bw) - 1 else 0;
      u.available == s.ue.available + last && u.remaining == Rest(s.ue.remaining, last)
  {
    U16Small(s.ue.available + MinRbUnit(bw) - 1);
    if s.ue.remaining >= MinRbUnit(bw) - 1 {
      U16Small(s.ue.remaining - (MinRbUnit(bw) - 1));
    }
  }

  /** What a turn comes to: the full groups, and the short last group if it is free and something is still missing. */
  lemma {:induction false} TurnComesTo(bw: Bandwidth, t: Turn, target: nat)
    requires Sound(bw, t, target) && target <= t.ue.required
    ensures var s, u := OfferAll(bw, FullGroups(bw), t).ue, OfferAll(bw, NbRbg(bw), t).ue;
      && Filled(bw, t.ue, s, FreeFull(bw, t.vrb))
      && var last := if TakesLast(bw, t.vrb, s) then MinRbUnit(bw) - 1 else 0;
         u.available == s.available + last && u.remaining == Rest(s.remaining, last)
  {
    var n := FullGroups(bw);
    FullTurn(bw, n, t, target);
    FullGroupsFit(MinRbUnit(bw), t.ue.remaining, Least(FreeBelow(t.vrb, n), t.ue.remaining / MinRbUnit(bw)));
    if n < NbRbg(bw) {
      LastOffer(bw, n, OfferAll(bw, n, t));
      OneMoreOffer(bw, n, t);
    }
  }

  /**
   * The free groups cover what a UE has left to take: there are enough full groups for all but a remainder, and the
   * remainder fits the short last group, or is what the clamp of that group has given the UE already.
   */
  predicate CoversRest(bw: Bandwidth, v: RbgMap, u: Alloc) {
    && FreeFull(bw, v) >= u.remaining / MinRbUnit(bw)
    && (u.remaining % MinRbUnit(bw) <= u.available + u.remaining - u.required || LastIsFreeAndShort(bw, v))
  }

  /** The last turn of a UE leaves it with its demand exactly when the free groups cover the rest. */
  lemma {:induction false} TurnSucceedsExactlyWhen(bw: Bandwidth, t: Turn)
    requires Sound(bw, t, t.ue.required)
    ensures OfferAll(bw, NbRbg(bw), t).ue.available >= t.ue.required <==> CoversRest(bw, t.vrb, t.ue)
  {
    TurnComesTo(bw, t, t.ue.required);
    FullGroupsFit(MinRbUnit(bw), t.ue.remaining,
                  Least(FreeFull(bw, t.vrb), t.ue.remaining / MinRbUnit(bw)));
  }

  /** Where no group is of use to a UE, its turn changes nothing. */
  lemma {:induction false} ExhaustedTurnIsIdle(bw: Bandwidth, n: nat, t: Turn)
    requires n <= NbRbg(bw) && Exhausted(bw, NbRbg(bw), t.vrb, t.ue)
    ensures OfferAll(bw, n, t) == t
  {
    if n == 0 {
    } else {
      ExhaustedTurnIsIdle(bw, n - 1, t);
    }
  }

  // ---------- both rounds ----------

  /** Later turns of a pass leave a UE alone. */
  lemma {:induction false} PassKeepsEarlier(bw: Bandwidth, high: bool, n: nat, c: Cell, j: nat)
    requires j < n <= |c.ues|
    ensures Pass(bw, high, n, c).ues[j] == Pass(bw, high, j + 1, c).ues[j]
  {
    if n == j + 1 {
    } else {
      PassKeepsEarlier(bw, high, n - 1, c, j);
    }
  }

  /** What a pass makes of a UE that it serves. */
  lemma {:induction false} PassOutcome(bw: Bandwidth, reserved: RbgMap, second: bool, high: bool, c: Cell, j: nat)
    requires CellInv(bw, reserved, second, c) && j < |c.ues| && IsServed(c.ues[j], high)
    ensures var d, v := Pass(bw, high, |c.ues|, c), Pass(bw, high, j, c).vrb;
      && d.ues[j] == OfferAll(bw, NbRbg(bw), Turn(v, c.ues[j])).ue
      && Subset(c.vrb, v) && Exhausted(bw, NbRbg(bw), d.vrb, d.ues[j])
  {
    PassSkips(bw, high, j, c);
    PassKeepsEarlier(bw, high, |c.ues|, c, j);
    PassFacts(bw, reserved, second, high, j, c);
    PassFacts(bw, reserved, second, high, |c.ues|, c);
    PassExhausts(bw, reserved, second, high, |c.ues|, c);
  }

  /** The map that a UE meets at its turn in a round. */
  function TurnMap(bw: Bandwidth, second: bool, c: Cell, j: nat): RbgMap
    requires j < |c.ues|
  {
    if c.ues[j].high then Pass(bw, true, j, Cell(c.vrb, PrepareAll(second, c.ues))).vrb
    else Pass(bw, false, j, HighPass(bw, second, c)).vrb
  }

  /** A round is, for a UE that wants something, its turn on the map that it meets. */
  lemma {:induction false} RoundIsTurn(bw: Bandwidth, reserved: RbgMap, second: bool, active: nat, c: Cell, j: nat)
    requires if second then CellInv(bw, reserved, false, c) else Opening(bw, reserved, c)
    requires active > 0 && j < |c.ues| && c.ues[j].required > 0
    ensures var t := Turn(TurnMap(bw, second, c, j), Prepare(second, c.ues[j]));
      && Sound(bw, t, if second then c.ues[j].required else c.ues[j].remaining1) && Subset(c.vrb, t.vrb)
      && Round(bw, second, active, c).ues[j] == OfferAll(bw, NbRbg(bw), t).ue
      && Exhausted(bw, NbRbg(bw), Round(bw, second, active, c).vrb, Round(bw, second, active, c).ues[j])
  {
    PrepareFacts(bw, reserved, second, c);
    var p, h := Cell(c.vrb, PrepareAll(second, c.ues)), HighPass(bw, second, c);
    PassFacts(bw, reserved, second, true, |p.ues|, p);
    PassFacts(bw, reserved, second, false, |h.ues|, h);
    if c.ues[j].high {
      PassOutcome(bw, reserved, second, true, p, j);
      PassSkips(bw, false, |h.ues|, h);
      ExhaustedLater(bw, h.vrb, Round(bw, second, active, c).vrb, h.ues[j]);
    } else {
      PassSkips(bw, true, |p.ues|, p);
      PassOutcome(bw, reserved, second, false, h, j);
    }
  }

  /** What a UE with this share is granted in the first round where it meets this map. */
  function FirstGrant(bw: Bandwidth, v: RbgMap, share: nat): nat {
    var full := MinRbUnit(bw) * Least(FreeFull(bw, v), share / MinRbUnit(bw));
    full + (if LastIsFreeAndShort(bw, v) && share > full then MinRbUnit(bw) - 1 else 0)
  }

  /** The first round in closed form. */
  lemma {:induction false} FirstRoundGrants(bw: Bandwidth, reserved: RbgMap, active: nat, c: Cell, j: nat)
    requires Opening(bw, reserved, c) && active > 0 && j < |c.ues| && c.ues[j].required > 0
    ensures var d, g := Round(bw, false, active, c), FirstGrant(bw, TurnMap(bw, false, c, j), c.ues[j].remaining1);
      && d.ues[j].available == g
      && Prepare(true, d.ues[j]).available == g
      && Prepare(true, d.ues[j]).remaining == c.ues[j].required - c.ues[j].remaining1 + Rest(c.ues[j].remaining1, g)
  {
    RoundIsTurn(bw, reserved, false, active, c, j);
    RoundFacts(bw, reserved, false, active, c);
    var t := Turn(TurnMap(bw, false, c, j), Prepare(false, c.ues[j]));
    TurnGrants(bw, t);
    var u := Round(bw, false, active, c).ues[j];
    U16Small(u.required - u.remaining1 + u.remaining);
  }

  /** A turn of a UE that has nothing yet and may take this share. */
  lemma {:induction false} TurnGrants(bw: Bandwidth, t: Turn)
    requires t.ue.available == 0 && Sound(bw, t, t.ue.remaining) && t.ue.remaining <= t.ue.required
    ensures var u, share := OfferAll(bw, NbRbg(bw), t).ue, t.ue.remaining;
      u.available == FirstGrant(bw, t.vrb, share) && u.remaining == Rest(share, u.available)
  {
    TurnComesTo(bw, t, t.ue.remaining);
    FullGroupsFit(MinRbUnit(bw), t.ue.remaining,
                  Least(FreeFull(bw, t.vrb), t.ue.remaining / MinRbUnit(bw)));
  }

  /**
   * After both rounds a UE has its demand exactly when the groups free at its second turn cover what it has left by
   * then.
   */
  lemma {:induction false} DemandMetExactlyWhen(bw: Bandwidth, reserved: RbgMap, active: nat, c: Cell, j: nat)
    requires Opening(bw, reserved, c) && active > 0 && j < |c.ues| && c.ues[j].required > 0
    ensures var d := Round(bw, false, active, c);
      Allocate(bw, active, c).ues[j].available >= c.ues[j].required <==>
      CoversRest(bw, TurnMap(bw, true, d, j), Prepare(true, d.ues[j]))
  {
    var d := Round(bw, false, active, c);
    RoundFacts(bw, reserved, false, active, c);
    RoundIsTurn(bw, reserved, true, active, d, j);
    TurnSucceedsExactlyWhen(bw, Turn(TurnMap(bw, true, d, j), Prepare(true, d.ues[j])));
  }

  /** Where nothing free is of use to a UE after the first round, the second gives it nothing. */
  lemma {:induction false} SecondRoundIsIdle(bw: Bandwidth, reserved: RbgMap, active: nat, c: Cell, j: nat)
    requires CellInv(bw, reserved, false, c) && active > 0 && j < |c.ues|
    requires 0 < c.ues[j].required == c.ues[j].remaining1 && Exhausted(bw, NbRbg(bw), c.vrb, c.ues[j])
    ensures Round(bw, true, active, c).ues[j] == c.ues[j]
  {
    U16Small(c.ues[j].remaining);
    RoundIsTurn(bw, reserved, true, active, c, j);
    IdleAt(bw, c.vrb, TurnMap(bw, true, c, j), c.ues[j]);
  }

  lemma {:induction false} IdleAt(bw: Bandwidth, v: RbgMap, v': RbgMap, u: Alloc)
    requires Exhausted(bw, NbRbg(bw), v, u) && Subset(v, v')
    ensures OfferAll(bw, NbRbg(bw), Turn(v', u)).ue == u
  {
    ExhaustedLater(bw, v, v', u);
    ExhaustedTurnIsIdle(bw, NbRbg(bw), Turn(v', u));
  }

  /**
   * For a UE whose share is its demand, as it is for all of high priority, the groups free at its first turn decide.
   */
  lemma {:induction false} WholeShareMetExactlyWhen(bw: Bandwidth, reserved: RbgMap, active: nat, c: Cell, j: nat)
    requires Opening(bw, reserved, c) && active > 0 && j < |c.ues|
    requires 0 < c.ues[j].required == c.ues[j].remaining1
    ensures Allocate(bw, active, c).ues[j].available >= c.ues[j].required <==>
            Covers(bw, TurnMap(bw, false, c, j), c.ues[j].required)
  {
    RoundIsTurn(bw, reserved, false, active, c, j);
    TurnSucceedsExactlyWhen(bw, Turn(TurnMap(bw, false, c, j), Prepare(false, c.ues[j])));
    RoundFacts(bw, reserved, false, active, c);
    SecondRoundIsIdle(bw, reserved, active, Round(bw, false, active, c), j);
  }

  /** Whoever is served first meets the map as it was before the round. */
  lemma {:induction false} FirstMeetsTheMap(bw: Bandwidth, c: Cell, j: nat)
    requires j < |c.ues| && c.ues[j].high
    requires forall k | 0 <= k < j :: !IsServed(c.ues[k], true)
    ensures TurnMap(bw, false, c, j) == c.vrb
  {
    NobodyServed(bw, true, j, Cell(c.vrb, PrepareAll(false, c.ues)));
  }

  lemma {:induction false} NobodyServed(bw: Bandwidth, high: bool, n: nat, c: Cell)
    requires n <= |c.ues| && forall k | 0 <= k < n :: !IsServed(c.ues[k], high)
    ensures Pass(bw, high, n, c) == c
  {
    if n == 0 {
    } else {
      NobodyServed(bw, high, n - 1, c);
    }
  }

  // ---------- no UE does better than the free groups allow ----------

  lemma {:induction false} SizeOfFullGroups(bw: Bandwidth, m: RbgMap, n: nat)
    requires n <= FullGroups(bw)
    ensures SizeOf(bw, m, n) == MinRbUnit(bw) * (n - FreeBelow(m, n)) && FreeBelow(m, n) <= n
  {
    if n == 0 {
    } else {
      SizeOfFullGroups(bw, m, n - 1);
      FullGroupsFit(MinRbUnit(bw), 0, n - 1 - FreeBelow(m, n - 1));
    }
  }

  lemma {:induction false} DisjointFrees(m: RbgMap, v: RbgMap, n: nat)
    requires n <= N_RBG_MAX && DisjointMaps(m, v)
    ensures n - FreeBelow(m, n) <= FreeBelow(v, n)
  {
    if n == 0 {
    } else {
      DisjointFrees(m, v, n - 1);
    }
  }

  /** Groups that give a UE its demand and no more than the clamp beyond it must have been free. */
  lemma {:induction false} GrantNeedsCover(bw: Bandwidth, v: RbgMap, u: Alloc)
    requires u.available == Rbs(bw, u.rbgs) && DisjointMaps(u.rbgs, v)
    requires u.required <= u.available <= u.required + ClampExcess(bw, u)
    ensures Covers(bw, v, u.required)
  {
    var n, unit := FullGroups(bw), MinRbUnit(bw);
    SizeOfFullGroups(bw, u.rbgs, n);
    DisjointFrees(u.rbgs, v, n);
    FullGroupsFit(unit, u.required, n - FreeBelow(u.rbgs, n));
    FullGroupsFit(unit, u.required, FreeBelow(v, n));
    GrantIsWhole(bw, u, n - FreeBelow(u.rbgs, n));
  }

  lemma {:induction false} GrantIsWhole(bw: Bandwidth, u: Alloc, full: nat)
    requires SizeOf(bw, u.rbgs, FullGroups(bw)) == MinRbUnit(bw) * full && u.available == Rbs(bw, u.rbgs)
    requires u.required <= u.available <= u.required + ClampExcess(bw, u)
    ensures full >= u.required / MinRbUnit(bw)
    ensures u.required % MinRbUnit(bw) == 0 || (FullGroups(bw) < NbRbg(bw) && u.rbgs[NbRbg(bw) - 1])
  {
    FullGroupsFit(MinRbUnit(bw), u.required, full);
    if FullGroups(bw) < NbRbg(bw) {
      assert Rbs(bw, u.rbgs) == SizeOf(bw, u.rbgs, FullGroups(bw))
        + (if u.rbgs[NbRbg(bw) - 1] then MinRbUnit(bw) - 1 else 0);
    }
  }

  // ---------- a round of the cell ----------

  /** The lowest available process was not acknowledged. */
  predicate Pending(u: UeState) {
    NextHarq(u.harq, 0) != -1 && u.harq.stats[NextHarq(u.harq, 0)] > 0
  }

  /** The blocks that are recorded for it. */
  function Recorded(u: UeState): nat
    requires Pending(u)
  {
    u.tx.nbScheduled[NextHarq(u.harq, 0)]
  }

  /** The cell, in serving order, when the first round begins. */
  function ServingCell(t: TbsTable, bw: Bandwidth, vrb: RbgMap, us: seq<UeState>, reports: seq<UeReport>,
                       order: seq<nat>): (c: Cell)
    requires |us| == |reports| && forall i | 0 <= i < |reports| :: ReportOk(reports[i])
    requires forall k | 0 <= k < |order| :: order[k] < |us|
    ensures |c.ues| == |order|
  {
    OpeningCell(bw, vrb, ChosenAll(Permuted(order, OpenedAll(t, bw, us, reports))))
  }

  predicate IsHigh(t: TbsTable, bw: Bandwidth, u: UeState, r: UeReport)
    requires ReportOk(r)
  {
    Opened(t, bw, u, r).alloc.high
  }

  lemma {:induction false} ServedHigh(t: TbsTable, bw: Bandwidth, vrb: RbgMap, us: seq<UeState>, reports: seq<UeReport>,
                                      order: seq<nat>, k: nat)
    requires |us| == |reports| && forall i | 0 <= i < |reports| :: ReportOk(reports[i])
    requires IsPermutation(order, |us|) && k < |order|
    ensures ServingCell(t, bw, vrb, us, reports, order).ues[k].high == IsHigh(t, bw, us[order[k]], reports[order[k]])
  {
    assert ChosenAll(Permuted(order, OpenedAll(t, bw, us, reports)))[k]
        == Chosen(Opened(t, bw, us[order[k]], reports[order[k]]));
  }

  /** What the demand of the UE at place `k` comes down to. */
  ghost predicate IsCovered(bw: Bandwidth, active: nat, c: Cell, k: nat)
    requires k < |c.ues|
  {
    var d := Round(bw, false, active, c);
    CoversRest(bw, TurnMap(bw, true, d, k), Prepare(true, d.ues[k]))
  }

  /** How many UEs the round counts as active. */
  function Active(t: TbsTable, bw: Bandwidth, us: seq<UeState>, reports: seq<UeReport>, order: seq<nat>): nat
    requires |us| == |reports| && forall i | 0 <= i < |reports| :: ReportOk(reports[i])
    requires forall k | 0 <= k < |order| :: order[k] < |us|
  {
    var served := ChosenAll(Permuted(order, OpenedAll(t, bw, us, reports)));
    ActiveCount(served, |served|)
  }

  /** What the rounds start from for a UE with a recorded retransmission. */
  lemma {:induction false} PendingIsServed(t: TbsTable, bw: Bandwidth, vrb: RbgMap, us: seq<UeState>,
                                           reports: seq<UeReport>, order: seq<nat>, vrb': RbgMap, mid: seq<UeState>,
                                           k: nat)
    requires |us| == |reports| && (forall i | 0 <= i < |reports| :: ReportOk(reports[i])) && RecordsFit(bw, us)
    requires Preprocessed(t, bw, vrb, us, reports, order, vrb', mid) && k < |order|
    requires Pending(us[order[k]]) && Recorded(us[order[k]]) > 0
    ensures var c, active := ServingCell(t, bw, vrb, us, reports, order), Active(t, bw, us, reports, order);
      && Opening(bw, vrb, c) && active > 0 && c.ues[k].required == Recorded(us[order[k]])
      && (c.ues[k].high ==> c.ues[k].remaining1 == c.ues[k].required)
      && mid[order[k]].alloc == Allocate(bw, active, c).ues[k]
  {
    var served := ChosenAll(Permuted(order, OpenedAll(t, bw, us, reports)));
    OpeningHolds(t, bw, vrb, us, reports, order);
    assert served[k] == Chosen(Opened(t, bw, us[order[k]], reports[order[k]]));
    assert served[k].alloc.required == Recorded(us[order[k]]);
    SomeoneIsCounted(served, |served|, k);
    var d := Allocate(bw, Active(t, bw, us, reports, order), OpeningCell(bw, vrb, served));
    assert Permuted(order, mid)[k] == Updated(served, d.ues)[k];
  }

  /** A pending retransmission is granted its blocks exactly if they are covered. */
  lemma {:induction false} PendingIsGrantedExactlyWhen(t: TbsTable, bw: Bandwidth, vrb: RbgMap, us: seq<UeState>,
                                                       reports: seq<UeReport>, order: seq<nat>, vrb': RbgMap,
                                                       mid: seq<UeState>, k: nat)
    requires |us| == |reports| && (forall i | 0 <= i < |reports| :: ReportOk(reports[i])) && RecordsFit(bw, us)
    requires Preprocessed(t, bw, vrb, us, reports, order, vrb', mid) && k < |order|
    requires Pending(us[order[k]]) && Recorded(us[order[k]]) > 0
    ensures mid[order[k]].alloc.available >= Recorded(us[order[k]]) <==>
            IsCovered(bw, Active(t, bw, us, reports, order), ServingCell(t, bw, vrb, us, reports, order), k)
  {
    PendingIsServed(t, bw, vrb, us, reports, order, vrb', mid, k);
    DemandMetExactlyWhen(bw, vrb, Active(t, bw, us, reports, order), ServingCell(t, bw, vrb, us, reports, order), k);
  }

  /** For a UE of high priority, the groups free at its first turn decide. */
  lemma {:induction false} HighIsGrantedExactlyWhen(t: TbsTable, bw: Bandwidth, vrb: RbgMap, us: seq<UeState>,
                                                    reports: seq<UeReport>, order: seq<nat>, vrb': RbgMap,
                                                    mid: seq<UeState>, k: nat)
    requires |us| == |reports| && (forall i | 0 <= i < |reports| :: ReportOk(reports[i])) && RecordsFit(bw, us)
    requires Preprocessed(t, bw, vrb, us, reports, order, vrb', mid) && k < |order|
    requires Pending(us[order[k]]) && Recorded(us[order[k]]) > 0 && IsHigh(t, bw, us[order[k]], reports[order[k]])
    ensures mid[order[k]].alloc.available >= Recorded(us[order[k]]) <==>
            Covers(bw, TurnMap(bw, false, ServingCell(t, bw, vrb, us, reports, order), k), Recorded(us[order[k]]))
  {
    PendingIsServed(t, bw, vrb, us, reports, order, vrb', mid, k);
    ServedHigh(t, bw, vrb, us, reports, order, k);
    WholeShareMetExactlyWhen(bw, vrb, Active(t, bw, us, reports, order),
                             ServingCell(t, bw, vrb, us, reports, order), k);
  }

  /** Whatever its priority and place, a UE is granted its demand only if the groups free before the round cover it. */
  lemma {:induction false} GrantedNeedsCover(t: TbsTable, bw: Bandwidth, vrb: RbgMap, us: seq<UeState>,
                                             reports: seq<UeReport>, order: seq<nat>, vrb': RbgMap, mid: seq<UeState>,
                                             k: nat)
    requires |us| == |reports| && (forall i | 0 <= i < |reports| :: ReportOk(reports[i])) && RecordsFit(bw, us)
    requires Preprocessed(t, bw, vrb, us, reports, order, vrb', mid) && k < |order|
    requires mid[order[k]].alloc.available >= mid[order[k]].alloc.required
    ensures Covers(bw, vrb, mid[order[k]].alloc.required)
  {
    var served := ChosenAll(Permuted(order, OpenedAll(t, bw, us, reports)));
    var c, active := OpeningCell(bw, vrb, served), ActiveCount(served, |served|);
    OpeningHolds(t, bw, vrb, us, reports, order);
    UeOutcome(bw, vrb, active, c, k);
    assert Permuted(order, mid)[k] == Updated(served, Allocate(bw, active, c).ues)[k];
    GrantNeedsCover(bw, vrb, Allocate(bw, active, c).ues[k]);
  }

  /** The UE has high priority and comes strictly before all others that have. */
  ghost predicate IsForemost(t: TbsTable, bw: Bandwidth, us: seq<UeState>, reports: seq<UeReport>, i: nat)
    requires |us| == |reports| && forall i | 0 <= i < |reports| :: ReportOk(reports[i])
  {
    && i < |us| && IsHigh(t, bw, us[i], reports[i])
    && forall j | 0 <= j < |us| && j != i && IsHigh(t, bw, us[j], reports[j]) ::
         !CompareStats(StatsOf(us[j].harq, reports[j]), StatsOf(us[i].harq, reports[i]))
  }

  lemma {:induction false} ForemostMeetsTheMap(t: TbsTable, bw: Bandwidth, vrb: RbgMap, us: seq<UeState>,
                                               reports: seq<UeReport>, order: seq<nat>, k: nat)
    requires |us| == |reports| && forall i | 0 <= i < |reports| :: ReportOk(reports[i])
    requires IsPermutation(order, |us|) && k < |order|
    requires IsOrdered(StatsAll(OpenedAll(t, bw, us, reports), reports), order)
    requires IsForemost(t, bw, us, reports, order[k])
    ensures TurnMap(bw, false, ServingCell(t, bw, vrb, us, reports, order), k) == vrb
  {
    var c := ServingCell(t, bw, vrb, us, reports, order);
    ServedHigh(t, bw, vrb, us, reports, order, k);
    forall l | 0 <= l < k
      ensures !c.ues[l].high
    {
      ServedHigh(t, bw, vrb, us, reports, order, l);
      var stats := StatsAll(OpenedAll(t, bw, us, reports), reports);
      assert CompareStats(stats[order[l]], stats[order[k]]);
      assert order[l] != order[k];
    }
    FirstMeetsTheMap(bw, c, k);
  }

  lemma {:induction false} AllFree(n: nat)
    requires n <= N_RBG_MAX
    ensures FreeBelow(EmptyMap(), n) == n
  {
    if n == 0 {
    } else {
      AllFree(n - 1);
    }
  }

  /** The empty map covers what fits the cell, but at 100 blocks only whole groups. */
  lemma {:induction false} EmptyMapCovers(bw: Bandwidth, nbRb: nat)
    requires nbRb <= bw
    ensures Covers(bw, EmptyMap(), nbRb) <==> (bw == 100 ==> nbRb % 4 == 0)
  {
    AllFree(FullGroups(bw));
    assert FreeFull(bw, EmptyMap()) == FullGroups(bw);
    assert nbRb / MinRbUnit(bw) <= FullGroups(bw);
  }

  /** A pending retransmission is sent exactly if control information fits, and blocks are recorded and granted. */
  lemma {:induction false} PendingIsSentIfGranted(t: TbsTable, bw: Bandwidth, us: seq<UeState>, inps: seq<UeInput>,
                                                  x: Inside, us': seq<UeState>, sents: seq<Option<Sent>>, i: nat)
    requires InputsOk(us, inps) && RecordsFit(bw, us) && RoundStep(t, bw, us, inps, x, us', sents)
    requires i < |us| && Pending(us[i])
    ensures x.mid[i].alloc.required == Recorded(us[i])
    ensures sents[i].Some? <==> inps[i].cceFeasible && 0 < Recorded(us[i]) <= x.mid[i].alloc.available
    ensures sents[i].None? ==> us'[i].harq == us[i].harq && us'[i].tx == us[i].tx
  {
    HandOver(t, bw, EmptyMap(), us, Reports(inps), x.order, x.vrb, x.mid);
    assert HandedOver(bw, us[i], x.mid[i]);
    assert SendStep(t, bw, x.mid[i], inps[i], x.mcs[i], us'[i], sents[i], x.mcs[i + 1]);
  }

  /** A grant of a demand that is no whole number of full groups holds the short last group. */
  lemma {:induction false} RemainderTakesLast(bw: Bandwidth, u: UeState, mid: UeState)
    requires HandedOver(bw, u, mid) && mid.alloc.required <= mid.alloc.available
    requires mid.alloc.required % MinRbUnit(bw) != 0
    ensures mid.alloc.rbgs[NbRbg(bw) - 1]
  {
    SizeOfFullGroups(bw, mid.alloc.rbgs, FullGroups(bw));
    GrantIsWhole(bw, mid.alloc, FullGroups(bw) - FreeBelow(mid.alloc.rbgs, FullGroups(bw)));
  }

  /**
   * Of the retransmissions whose blocks are no whole number of full groups, a round sends at most one, however many
   * groups are free: they all need the short last group. At 50 blocks this holds of the records of four blocks with
   * which the lowest MCS starts.
   */
  lemma {:induction false} OneRemainderPerRound(t: TbsTable, bw: Bandwidth, us: seq<UeState>, inps: seq<UeInput>,
                                                x: Inside, us': seq<UeState>, sents: seq<Option<Sent>>, i: nat, j: nat)
    requires InputsOk(us, inps) && RecordsFit(bw, us) && RoundStep(t, bw, us, inps, x, us', sents)
    requires i < |us| && j < |us| && i != j && Pending(us[i]) && Pending(us[j])
    requires Recorded(us[i]) % MinRbUnit(bw) != 0 && Recorded(us[j]) % MinRbUnit(bw) != 0
    ensures sents[i].None? || sents[j].None?
  {
    PendingIsSentIfGranted(t, bw, us, inps, x, us', sents, i);
    PendingIsSentIfGranted(t, bw, us, inps, x, us', sents, j);
    if sents[i].Some? && sents[j].Some? {
      HandOver(t, bw, EmptyMap(), us, Reports(inps), x.order, x.vrb, x.mid);
      RemainderTakesLast(bw, us[i], x.mid[i]);
      RemainderTakesLast(bw, us[j], x.mid[j]);
      GrantsDisjoint(t, bw, EmptyMap(), us, Reports(inps), x.order, x.vrb, x.mid, i, j);
    }
  }

  /**
   * For every UE: a pending retransmission is sent exactly if control information fits, blocks are recorded, and the
   * groups free at the UE's second turn cover what its first has left.
   */
  lemma {:induction false} RetransmissionIsSentExactlyWhen(t: TbsTable, bw: Bandwidth, us: seq<UeState>,
                                                           inps: seq<UeInput>, x: Inside, us': seq<UeState>,
                                                           sents: seq<Option<Sent>>, k: nat)
    requires InputsOk(us, inps) && RecordsFit(bw, us) && RoundStep(t, bw, us, inps, x, us', sents)
    requires k < |x.order| && Pending(us[x.order[k]])
    ensures var i, c := x.order[k], ServingCell(t, bw, EmptyMap(), us, Reports(inps), x.order);
      sents[i].Some? <==> inps[i].cceFeasible && Recorded(us[i]) > 0
                          && IsCovered(bw, Active(t, bw, us, Reports(inps), x.order), c, k)
  {
    PendingIsSentIfGranted(t, bw, us, inps, x, us', sents, x.order[k]);
    if Recorded(us[x.order[k]]) > 0 {
      PendingIsGrantedExactlyWhen(t, bw, EmptyMap(), us, Reports(inps), x.order, x.vrb, x.mid, k);
    }
  }

  /** For a UE of high priority, in terms of the groups that those before it leave. */
  lemma {:induction false} HighIsSentExactlyWhen(t: TbsTable, bw: Bandwidth, us: seq<UeState>, inps: seq<UeInput>,
                                                 x: Inside, us': seq<UeState>, sents: seq<Option<Sent>>, k: nat)
    requires InputsOk(us, inps) && RecordsFit(bw, us) && RoundStep(t, bw, us, inps, x, us', sents) && k < |x.order|
    requires Pending(us[x.order[k]]) && IsHigh(t, bw, us[x.order[k]], inps[x.order[k]].report)
    ensures var i, c := x.order[k], ServingCell(t, bw, EmptyMap(), us, Reports(inps), x.order);
      sents[i].Some? <==> inps[i].cceFeasible && Recorded(us[i]) > 0
                          && Covers(bw, TurnMap(bw, false, c, k), Recorded(us[i]))
  {
    PendingIsSentIfGranted(t, bw, us, inps, x, us', sents, x.order[k]);
    if Recorded(us[x.order[k]]) > 0 {
      HighIsGrantedExactlyWhen(t, bw, EmptyMap(), us, Reports(inps), x.order, x.vrb, x.mid, k);
    }
  }

  /** For the foremost UE, from the state before the round alone. */
  lemma {:induction false} ForemostIsSentExactlyWhen(t: TbsTable, bw: Bandwidth, us: seq<UeState>, inps: seq<UeInput>,
                                                     x: Inside, us': seq<UeState>, sents: seq<Option<Sent>>, i: nat)
    requires InputsOk(us, inps) && RecordsFit(bw, us) && RoundStep(t, bw, us, inps, x, us', sents)
    requires IsForemost(t, bw, us, Reports(inps), i) && Pending(us[i])
    ensures sents[i].Some? <==>
            inps[i].cceFeasible && Recorded(us[i]) > 0 && (bw == 100 ==> Recorded(us[i]) % 4 == 0)
  {
    var k := PlaceOf(x.order, i);
    HighIsSentExactlyWhen(t, bw, us, inps, x, us', sents, k);
    ForemostMeetsTheMap(t, bw, EmptyMap(), us, Reports(inps), x.order, k);
    assert TxFits(bw, us[i].tx);
    EmptyMapCovers(bw, Recorded(us[i]));
  }
}
