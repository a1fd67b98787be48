/** The two allocation rounds over the shared map (src/app/remote_scheduler_helper.cc), on values,
    and what they guarantee. UEs are listed in the order in which they are served. */
module Allocation {
  import opened Primitives
  import opened UeScheduling

  /** The shared map and one UE, while groups are being offered to it. */
  datatype Turn = Turn(vrb: RbgMap, ue: Alloc)

  datatype Cell = Cell(vrb: RbgMap, ues: seq<Alloc>)

  // ---------- the algorithm ----------

  function Take(t: Turn, i: nat, size: nat): Turn
    requires i < N_RBG_MAX
  {
    Turn(t.vrb[i := true],
         t.ue.(rbgs := t.ue.rbgs[i := true],
               remaining := if t.ue.remaining - size <= 0 then 0 else U16(t.ue.remaining - size),
               available := U16(t.ue.available + size)))
  }

  /** Offers group `i` to a UE. */
  function Offer(bw: Bandwidth, i: nat, t: Turn): Turn
    requires i < NbRbg(bw)
  {
    if t.vrb[i] || t.ue.rbgs[i] || t.ue.remaining == 0 || t.ue.available >= t.ue.required then t
    else if IsShortGroup(bw, i) then Take(t, i, MinRbUnit(bw) - 1)
    else if t.ue.remaining >= MinRbUnit(bw) then Take(t, i, MinRbUnit(bw))
    else t
  }

  function OfferAll(bw: Bandwidth, n: nat, t: Turn): Turn
    requires n <= NbRbg(bw)
  {
    if n == 0 then t else Offer(bw, n - 1, OfferAll(bw, n - 1, t))
  }

  predicate IsServed(u: Alloc, high: bool) {
    u.high == high && u.required > 0
  }

  function Serve(bw: Bandwidth, j: nat, c: Cell): Cell
    requires j < |c.ues|
  {
    var t := OfferAll(bw, NbRbg(bw), Turn(c.vrb, c.ues[j]));
    Cell(t.vrb, c.ues[j := t.ue])
  }

  /** The first `n` UEs have had their turn in the pass for one priority. */
  function Pass(bw: Bandwidth, high: bool, n: nat, c: Cell): (r: Cell)
    requires n <= |c.ues|
    ensures |r.ues| == |c.ues|
  {
    if n == 0 then c
    else
      var d := Pass(bw, high, n - 1, c);
      if IsServed(d.ues[n - 1], high) then Serve(bw, n - 1, d) else d
  }

  /** Sets what a UE may still take in a round. */
  function Prepare(second: bool, u: Alloc): Alloc {
    if u.required == 0 then u
    else if second then u.(remaining := U16(u.required - u.remaining1 + u.remaining))
    else u.(remaining := u.remaining1)
  }

  function PrepareAll(second: bool, ues: seq<Alloc>): seq<Alloc> {
    seq(|ues|, j requires 0 <= j < |ues| => Prepare(second, ues[j]))
  }

  function HighPass(bw: Bandwidth, second: bool, c: Cell): (r: Cell)
    ensures |r.ues| == |c.ues|
  {
    Pass(bw, true, |c.ues|, Cell(c.vrb, PrepareAll(second, c.ues)))
  }

  /** One round; `active` is the number of UEs counted as active. */
  function Round(bw: Bandwidth, second: bool, active: nat, c: Cell): (r: Cell)
    ensures |r.ues| == |c.ues|
  {
    if active > 0 then Pass(bw, false, |c.ues|, HighPass(bw, second, c))
    else Cell(c.vrb, PrepareAll(second, c.ues))
  }

  function Allocate(bw: Bandwidth, active: nat, c: Cell): (r: Cell)
    ensures |r.ues| == |c.ues|
  {
    Round(bw, true, active, Round(bw, false, active, c))
  }

  // ---------- one UE and the shared map ----------

  predicate IsEmpty(m: RbgMap) {
    forall k | 0 <= k < N_RBG_MAX :: !m[k]
  }

  predicate Subset(m: RbgMap, m': RbgMap) {
    forall k | 0 <= k < N_RBG_MAX :: m[k] ==> m'[k]
  }

  /** The UE took exactly the groups newly marked, which were free; its demand and share are as before. */
  ghost predicate Moves(t: Turn, t': Turn) {
    && t'.ue.required == t.ue.required && t'.ue.remaining1 == t.ue.remaining1 && t'.ue.high == t.ue.high
    && Subset(t.vrb, t'.vrb) && Subset(t.ue.rbgs, t'.ue.rbgs) && Subset(t'.ue.rbgs, t'.vrb)
    && (forall k | 0 <= k < N_RBG_MAX :: !t.vrb[k] && t'.vrb[k] <==> !t.ue.rbgs[k] && t'.ue.rbgs[k])
    && t.ue.available <= t'.ue.available && t'.ue.remaining <= t.ue.remaining
  }

  /** The UE's credit grew by the size of what was marked. */
  ghost predicate Credited(bw: Bandwidth, t: Turn, t': Turn) {
    t'.ue.available - t.ue.available == Rbs(bw, t'.vrb) - Rbs(bw, t.vrb) == Rbs(bw, t'.ue.rbgs) - Rbs(bw, t.ue.rbgs)
  }

  /** Grants and open wishes add up to `t`, or to one more once the short group at 50 blocks was clamped. */
  predicate Balanced(bw: Bandwidth, u: Alloc, t: nat) {
    || u.available + u.remaining == t
    || (bw == 50 && u.rbgs[NbRbg(bw) - 1] && u.available + u.remaining == t + 1)
  }

  /** What a UE must still want to take group `i`. */
  function Needed(bw: Bandwidth, i: nat): nat {
    if IsShortGroup(bw, i) then 1 else MinRbUnit(bw)
  }

  /** No group below `n` that is free in `v` is of use to the UE any more. */
  predicate Exhausted(bw: Bandwidth, n: nat, v: RbgMap, u: Alloc)
    requires n <= NbRbg(bw)
  {
    forall i | 0 <= i < n :: !v[i] ==> u.remaining < Needed(bw, i) || u.available >= u.required
  }

  /** The demand and the round's target fit the cell, and the UE's groups are marked in the map. */
  predicate Sound(bw: Bandwidth, t: Turn, target: nat) {
    t.ue.required <= bw && target <= bw && Subset(t.ue.rbgs, t.vrb) && Balanced(bw, t.ue, target)
  }

  lemma {:induction false} U16Small(x: int)
    requires 0 <= x < 0x1_0000
    ensures U16(x) == x
  {
  }

  /** A UE that takes the group is served without truncation: at most the clamp of its wish to zero. */
  lemma {:induction false} TakeExact(bw: Bandwidth, i: nat, t: Turn, target: nat)
    requires i < NbRbg(bw) && Sound(bw, t, target) && Offer(bw, i, t) != t
    ensures
      var size := RbgSize(bw, i);
      && !t.vrb[i] && !t.ue.rbgs[i] && t.ue.remaining >= Needed(bw, i)
      && Offer(bw, i, t) == Turn(t.vrb[i := true], t.ue.(
           rbgs := t.ue.rbgs[i := true],
           remaining := if t.ue.remaining >= size then t.ue.remaining - size else 0,
           available := t.ue.available + size))
  {
    U16Small(t.ue.available + RbgSize(bw, i));
    if t.ue.remaining >= RbgSize(bw, i) {
      U16Small(t.ue.remaining - RbgSize(bw, i));
    }
  }

  lemma {:induction false} OfferMoves(bw: Bandwidth, i: nat, t: Turn, target: nat)
    requires i < NbRbg(bw) && Sound(bw, t, target)
    ensures Moves(t, Offer(bw, i, t))
    ensures Offer(bw, i, t).vrb[i] || Offer(bw, i, t).ue.remaining < Needed(bw, i)
            || Offer(bw, i, t).ue.available >= t.ue.required
  {
    if Offer(bw, i, t) != t {
      TakeExact(bw, i, t, target);
    }
  }

  lemma {:induction false} OfferBalances(bw: Bandwidth, i: nat, t: Turn, target: nat)
    requires i < NbRbg(bw) && Sound(bw, t, target)
    ensures Balanced(bw, Offer(bw, i, t).ue, target)
  {
    if Offer(bw, i, t) != t {
      TakeExact(bw, i, t, target);
    }
  }

  lemma {:induction false} OfferCredits(bw: Bandwidth, i: nat, t: Turn, target: nat)
    requires i < NbRbg(bw) && Sound(bw, t, target)
    ensures Credited(bw, t, Offer(bw, i, t))
  {
    if Offer(bw, i, t) != t {
      TakeExact(bw, i, t, target);
      SizeOfMark(bw, t.vrb, i, NbRbg(bw));
      SizeOfMark(bw, t.ue.rbgs, i, NbRbg(bw));
    }
  }

  lemma {:induction false} MovesTransitive(bw: Bandwidth, t: Turn, u: Turn, v: Turn)
    requires Moves(t, u) && Moves(u, v) && Credited(bw, t, u) && Credited(bw, u, v)
    ensures Moves(t, v) && Credited(bw, t, v)
  {
  }

  lemma {:induction false} OfferAllFacts(bw: Bandwidth, n: nat, t: Turn, target: nat)
    requires n <= NbRbg(bw) && Sound(bw, t, target)
    ensures
      var t' := OfferAll(bw, n, t);
      Moves(t, t') && Credited(bw, t, t') && Sound(bw, t', target)
  {
    if n == 0 {
    } else {
      OfferAllFacts(bw, n - 1, t, target);
      var u := OfferAll(bw, n - 1, t);
      OfferMoves(bw, n - 1, u, target);
      OfferBalances(bw, n - 1, u, target);
      OfferCredits(bw, n - 1, u, target);
      MovesTransitive(bw, t, u, Offer(bw, n - 1, u));
    }
  }

  lemma {:induction false} OfferExhausts(bw: Bandwidth, i: nat, u: Turn, target: nat)
    requires i < NbRbg(bw) && Sound(bw, u, target) && Exhausted(bw, i, u.vrb, u.ue)
    ensures Exhausted(bw, i + 1, Offer(bw, i, u).vrb, Offer(bw, i, u).ue)
  {
    OfferMoves(bw, i, u, target);
  }

  /** Once every group was offered, those still free are of no use to the UE. */
  lemma {:induction false} OfferAllExhausts(bw: Bandwidth, n: nat, t: Turn, target: nat)
    requires n <= NbRbg(bw) && Sound(bw, t, target)
    ensures Exhausted(bw, n, OfferAll(bw, n, t).vrb, OfferAll(bw, n, t).ue)
  {
    if n == 0 {
    } else {
      OfferAllExhausts(bw, n - 1, t, target);
      OfferAllFacts(bw, n - 1, t, target);
      OfferExhausts(bw, n - 1, OfferAll(bw, n - 1, t), target);
      assert OfferAll(bw, n, t) == Offer(bw, n - 1, OfferAll(bw, n - 1, t));
    }
  }

  // ---------- all UEs of a cell ----------

  function Granted(ues: seq<Alloc>, n: nat): nat
    requires n <= |ues|
  {
    if n == 0 then 0 else Granted(ues, n - 1) + ues[n - 1].available
  }

  predicate DisjointMaps(m: RbgMap, m': RbgMap) {
    forall k | 0 <= k < N_RBG_MAX :: !(m[k] && m'[k])
  }

  /** A UE's groups are marked and were not reserved; those of two UEs have nothing in common. */
  ghost predicate Apart(reserved: RbgMap, c: Cell) {
    && Subset(reserved, c.vrb)
    && (forall j | 0 <= j < |c.ues| :: Subset(c.ues[j].rbgs, c.vrb) && DisjointMaps(c.ues[j].rbgs, reserved))
    && forall j, l | 0 <= j < l < |c.ues| :: DisjointMaps(c.ues[j].rbgs, c.ues[l].rbgs)
  }

  ghost predicate HasOwner(ues: seq<Alloc>, k: nat)
    requires k < N_RBG_MAX
  {
    exists j :: 0 <= j < |ues| && ues[j].rbgs[k]
  }

  /** Every marked group was reserved before the round or belongs to exactly one UE. */
  ghost predicate Exclusive(reserved: RbgMap, c: Cell) {
    && Apart(reserved, c)
    && forall k: nat | k < N_RBG_MAX :: c.vrb[k] && !reserved[k] ==> HasOwner(c.ues, k)
  }

  /** Each UE is credited with the size of its groups; granted, reserved and free blocks fill the cell. */
  ghost predicate Conserved(bw: Bandwidth, reserved: RbgMap, c: Cell) {
    && (forall j | 0 <= j < |c.ues| :: c.ues[j].available == Rbs(bw, c.ues[j].rbgs))
    && Granted(c.ues, |c.ues|) + Rbs(bw, reserved) == Rbs(bw, c.vrb)
    && Granted(c.ues, |c.ues|) + Rbs(bw, reserved) + Rbs(bw, Complement(c.vrb)) == bw
  }

  /** The state between two turns: demands fit, and grants and wishes are balanced against the round's target. */
  ghost predicate CellInv(bw: Bandwidth, reserved: RbgMap, second: bool, c: Cell) {
    && Exclusive(reserved, c) && Conserved(bw, reserved, c)
    && forall j | 0 <= j < |c.ues| ::
      && c.ues[j].required <= bw && c.ues[j].remaining1 <= c.ues[j].required
      && Balanced(bw, c.ues[j], if second then c.ues[j].required else c.ues[j].remaining1)
  }

  lemma {:induction false} GrantedUpdate(ues: seq<Alloc>, j: nat, u: Alloc, n: nat)
    requires j < |ues| && n <= |ues|
    ensures Granted(ues[j := u], n) == Granted(ues, n) + (if j < n then u.available - ues[j].available else 0)
  {
    if n == 0 {
    } else {
      GrantedUpdate(ues, j, u, n - 1);
    }
  }

  lemma {:induction false} GrantedSame(ues: seq<Alloc>, ues': seq<Alloc>, n: nat)
    requires n <= |ues| == |ues'|
    requires forall j | 0 <= j < |ues| :: ues'[j].available == ues[j].available
    ensures Granted(ues', n) == Granted(ues, n)
  {
    if n == 0 {
    } else {
      GrantedSame(ues, ues', n - 1);
    }
  }

  /** What a later state of the cell has in common with an earlier one. */
  ghost predicate Later(c: Cell, d: Cell) {
    && |d.ues| == |c.ues| && Subset(c.vrb, d.vrb)
    && forall j | 0 <= j < |c.ues| ::
      && d.ues[j].required == c.ues[j].required && d.ues[j].high == c.ues[j].high
      && d.ues[j].remaining1 == c.ues[j].remaining1
      && c.ues[j].available <= d.ues[j].available
      && (forall k | 0 <= k < N_RBG_MAX :: d.ues[j].rbgs[k] && !c.ues[j].rbgs[k] ==> !c.vrb[k])
  }

  /** UE `j` has had its turn, which ended in `t`. */
  function Turned(c: Cell, j: nat, t: Turn): Cell
    requires j < |c.ues|
  {
    Cell(t.vrb, c.ues[j := t.ue])
  }

  lemma {:induction false} TurnKeepsApart(reserved: RbgMap, c: Cell, j: nat, t: Turn)
    requires Apart(reserved, c) && j < |c.ues| && Moves(Turn(c.vrb, c.ues[j]), t)
    ensures Apart(reserved, Turned(c, j, t))
  {
    var d := Turned(c, j, t);
    forall l | 0 <= l < |c.ues| && l != j
      ensures DisjointMaps(d.ues[l].rbgs, t.ue.rbgs) && DisjointMaps(t.ue.rbgs, d.ues[l].rbgs)
    {
      assert Subset(c.ues[l].rbgs, c.vrb);
      assert DisjointMaps(c.ues[l].rbgs, c.ues[j].rbgs) || DisjointMaps(c.ues[j].rbgs, c.ues[l].rbgs);
    }
  }

  lemma {:induction false} TurnKeepsExclusive(reserved: RbgMap, c: Cell, j: nat, t: Turn)
    requires Exclusive(reserved, c) && j < |c.ues| && Moves(Turn(c.vrb, c.ues[j]), t)
    ensures Exclusive(reserved, Turned(c, j, t))
  {
    TurnKeepsApart(reserved, c, j, t);
    var d := Turned(c, j, t);
    forall k: nat | k < N_RBG_MAX && d.vrb[k] && !reserved[k]
      ensures HasOwner(d.ues, k)
    {
      if c.vrb[k] {
        var l :| 0 <= l < |c.ues| && c.ues[l].rbgs[k];
        assert d.ues[l].rbgs[k];
      } else {
        assert d.ues[j].rbgs[k];
      }
    }
  }

  lemma {:induction false} TurnKeepsConserved(bw: Bandwidth, reserved: RbgMap, c: Cell, j: nat, t: Turn)
    requires Conserved(bw, reserved, c) && j < |c.ues| && Credited(bw, Turn(c.vrb, c.ues[j]), t)
    ensures Conserved(bw, reserved, Turned(c, j, t))
  {
    GrantedUpdate(c.ues, j, t.ue, |c.ues|);
    GroupsFillTheCell(bw, t.vrb);
  }

  lemma {:induction false} ServeFacts(bw: Bandwidth, reserved: RbgMap, second: bool, j: nat, c: Cell)
    requires CellInv(bw, reserved, second, c) && j < |c.ues|
    ensures
      var d := Serve(bw, j, c);
      CellInv(bw, reserved, second, d) && Later(c, d) && Exhausted(bw, NbRbg(bw), d.vrb, d.ues[j])
  {
    var s := Turn(c.vrb, c.ues[j]);
    var t := OfferAll(bw, NbRbg(bw), s);
    var target := if second then s.ue.required else s.ue.remaining1;
    OfferAllFacts(bw, NbRbg(bw), s, target);
    OfferAllExhausts(bw, NbRbg(bw), s, target);
    TurnKeepsExclusive(reserved, c, j, t);
    TurnKeepsConserved(bw, reserved, c, j, t);
  }

  lemma {:induction false} LaterTransitive(c: Cell, d: Cell, e: Cell)
    requires Later(c, d) && Later(d, e)
    ensures Later(c, e)
  {
  }

  lemma {:induction false} PassFacts(bw: Bandwidth, reserved: RbgMap, second: bool, high: bool, n: nat, c: Cell)
    requires CellInv(bw, reserved, second, c) && n <= |c.ues|
    ensures CellInv(bw, reserved, second, Pass(bw, high, n, c)) && Later(c, Pass(bw, high, n, c))
  {
    if n == 0 {
    } else {
      var d, e := Pass(bw, high, n - 1, c), Pass(bw, high, n, c);
      PassFacts(bw, reserved, second, high, n - 1, c);
      LastTurn(bw, high, n, c, d, e);
      PassTurn(bw, reserved, second, high, n - 1, c, d, e);
    }
  }

  lemma {:induction false} LastTurn(bw: Bandwidth, high: bool, n: nat, c: Cell, d: Cell, e: Cell)
    requires 0 < n <= |c.ues| && d == Pass(bw, high, n - 1, c) && e == Pass(bw, high, n, c)
    ensures e == if IsServed(d.ues[n - 1], high) then Serve(bw, n - 1, d) else d
  {
  }

  /** One turn of a pass over the cell `d`, which comes after `c`. */
  lemma {:induction false} PassTurn(bw: Bandwidth, reserved: RbgMap, second: bool, high: bool, j: nat, c: Cell, d: Cell,
                                    e: Cell)
    requires CellInv(bw, reserved, second, d) && Later(c, d) && j < |d.ues|
    requires e == if IsServed(d.ues[j], high) then Serve(bw, j, d) else d
    ensures CellInv(bw, reserved, second, e) && Later(c, e)
    ensures Subset(d.vrb, e.vrb) && forall l | 0 <= l < |d.ues| && l != j :: e.ues[l] == d.ues[l]
    ensures IsServed(e.ues[j], high) ==> Exhausted(bw, NbRbg(bw), e.vrb, e.ues[j])
  {
    if IsServed(d.ues[j], high) {
      ServeFacts(bw, reserved, second, j, d);
      LaterTransitive(c, d, e);
    }
  }

  /** UEs of the other priority, and those whose turn is still to come, keep their state. */
  lemma {:induction false} PassSkips(bw: Bandwidth, high: bool, n: nat, c: Cell)
    requires n <= |c.ues|
    ensures forall j | 0 <= j < |c.ues| && (n <= j || !IsServed(c.ues[j], high)) ::
              Pass(bw, high, n, c).ues[j] == c.ues[j]
  {
    if n == 0 {
    } else {
      PassSkips(bw, high, n - 1, c);
    }
  }

  lemma {:induction false} ExhaustedLater(bw: Bandwidth, v: RbgMap, v': RbgMap, u: Alloc)
    requires Exhausted(bw, NbRbg(bw), v, u) && Subset(v, v')
    ensures Exhausted(bw, NbRbg(bw), v', u)
  {
  }

  ghost predicate AllExhausted(bw: Bandwidth, high: bool, n: nat, c: Cell)
    requires n <= |c.ues|
  {
    forall j | 0 <= j < n && IsServed(c.ues[j], high) :: Exhausted(bw, NbRbg(bw), c.vrb, c.ues[j])
  }

  lemma {:induction false} ExtendExhausted(bw: Bandwidth, high: bool, m: nat, d: Cell, e: Cell)
    requires m < |d.ues| == |e.ues| && Subset(d.vrb, e.vrb) && AllExhausted(bw, high, m, d)
    requires forall j | 0 <= j < m :: e.ues[j] == d.ues[j]
    requires IsServed(e.ues[m], high) ==> Exhausted(bw, NbRbg(bw), e.vrb, e.ues[m])
    ensures AllExhausted(bw, high, m + 1, e)
  {
    forall j | 0 <= j < m && IsServed(e.ues[j], high)
      ensures Exhausted(bw, NbRbg(bw), e.vrb, e.ues[j])
    {
      ExhaustedLater(bw, d.vrb, e.vrb, d.ues[j]);
    }
  }

  /** The last turn of a pass. */
  lemma {:induction false} PassStep(bw: Bandwidth, reserved: RbgMap, second: bool, high: bool, n: nat, c: Cell)
    requires CellInv(bw, reserved, second, c) && 0 < n <= |c.ues|
    ensures
      var d, e := Pass(bw, high, n - 1, c), Pass(bw, high, n, c);
      && Subset(d.vrb, e.vrb) && (forall j | 0 <= j < n - 1 :: e.ues[j] == d.ues[j])
      && (IsServed(e.ues[n - 1], high) ==> Exhausted(bw, NbRbg(bw), e.vrb, e.ues[n - 1]))
  {
    PassFacts(bw, reserved, second, high, n - 1, c);
    PassTurn(bw, reserved, second, high, n - 1, c, Pass(bw, high, n - 1, c), Pass(bw, high, n, c));
  }

  /** After a pass no group still free is of use to a UE that was served in it. */
  lemma {:induction false} PassExhausts(bw: Bandwidth, reserved: RbgMap, second: bool, high: bool, n: nat, c: Cell)
    requires CellInv(bw, reserved, second, c) && n <= |c.ues|
    ensures AllExhausted(bw, high, n, Pass(bw, high, n, c))
  {
    if n == 0 {
    } else {
      PassExhausts(bw, reserved, second, high, n - 1, c);
      PassStep(bw, reserved, second, high, n, c);
      ExtendExhausted(bw, high, n - 1, Pass(bw, high, n - 1, c), Pass(bw, high, n, c));
    }
  }

  lemma {:induction false} PrepareOne(bw: Bandwidth, second: bool, u: Alloc)
    requires u.required <= bw && u.remaining1 <= u.required
    requires second ==> Balanced(bw, u, u.remaining1)
    requires !second ==> u.available == 0 && u.remaining == 0
    ensures Balanced(bw, Prepare(second, u), if second then u.required else u.remaining1)
  {
    if second {
      U16Small(u.required - u.remaining1 + u.remaining);
    }
  }

  lemma {:induction false} PrepareExclusive(reserved: RbgMap, second: bool, c: Cell)
    requires Exclusive(reserved, c)
    ensures Exclusive(reserved, Cell(c.vrb, PrepareAll(second, c.ues)))
  {
    var d := Cell(c.vrb, PrepareAll(second, c.ues));
    forall j | 0 <= j < |c.ues|
      ensures d.ues[j].rbgs == c.ues[j].rbgs
    {
    }
    forall k: nat | k < N_RBG_MAX && d.vrb[k] && !reserved[k]
      ensures HasOwner(d.ues, k)
    {
      var l :| 0 <= l < |c.ues| && c.ues[l].rbgs[k];
      assert d.ues[l].rbgs[k];
    }
  }

  lemma {:induction false} PrepareConserved(bw: Bandwidth, reserved: RbgMap, second: bool, c: Cell)
    requires Conserved(bw, reserved, c)
    ensures Conserved(bw, reserved, Cell(c.vrb, PrepareAll(second, c.ues)))
  {
    GrantedSame(c.ues, PrepareAll(second, c.ues), |c.ues|);
  }

  /** Between the rounds the wishes are reset: the rest of the demand, not of the share, may be taken. */
  lemma {:induction false} PrepareFacts(bw: Bandwidth, reserved: RbgMap, second: bool, c: Cell)
    requires if second then CellInv(bw, reserved, false, c) else Opening(bw, reserved, c)
    ensures
      var d := Cell(c.vrb, PrepareAll(second, c.ues));
      CellInv(bw, reserved, second, d) && Later(c, d)
  {
    var d := Cell(c.vrb, PrepareAll(second, c.ues));
    if !second {
      OpeningFacts(bw, reserved, c);
    }
    PrepareExclusive(reserved, second, c);
    PrepareConserved(bw, reserved, second, c);
    forall j | 0 <= j < |c.ues|
      ensures Balanced(bw, d.ues[j], if second then d.ues[j].required else d.ues[j].remaining1)
    {
      PrepareOne(bw, second, c.ues[j]);
    }
  }

  /** The state in which the rounds start: nothing is granted, and each share is within the demand. */
  ghost predicate Opening(bw: Bandwidth, reserved: RbgMap, c: Cell) {
    && c.vrb == reserved
    && forall j | 0 <= j < |c.ues| ::
      && IsEmpty(c.ues[j].rbgs) && c.ues[j].available == 0 && c.ues[j].remaining == 0
      && c.ues[j].required <= bw && c.ues[j].remaining1 <= c.ues[j].required
  }

  lemma {:induction false} EmptySize(bw: Bandwidth, m: RbgMap, n: nat)
    requires n <= NbRbg(bw) && IsEmpty(m)
    ensures SizeOf(bw, m, n) == 0
  {
    if n == 0 {
    } else {
      EmptySize(bw, m, n - 1);
    }
  }

  lemma {:induction false} NothingGranted(ues: seq<Alloc>, n: nat)
    requires n <= |ues| && forall j | 0 <= j < |ues| :: ues[j].available == 0
    ensures Granted(ues, n) == 0
  {
    if n == 0 {
    } else {
      NothingGranted(ues, n - 1);
    }
  }

  lemma {:induction false} OpeningFacts(bw: Bandwidth, reserved: RbgMap, c: Cell)
    requires Opening(bw, reserved, c)
    ensures Exclusive(reserved, c) && Conserved(bw, reserved, c)
  {
    NothingGranted(c.ues, |c.ues|);
    GroupsFillTheCell(bw, c.vrb);
    forall j | 0 <= j < |c.ues| {
      EmptySize(bw, c.ues[j].rbgs, NbRbg(bw));
    }
  }

  // ---------- what the two rounds guarantee ----------

  lemma {:induction false} RoundFacts(bw: Bandwidth, reserved: RbgMap, second: bool, active: nat, c: Cell)
    requires if second then CellInv(bw, reserved, false, c) else Opening(bw, reserved, c)
    ensures CellInv(bw, reserved, second, Round(bw, second, active, c))
    ensures Later(c, Round(bw, second, active, c))
  {
    PrepareFacts(bw, reserved, second, c);
    var d := Cell(c.vrb, PrepareAll(second, c.ues));
    if active > 0 {
      PassFacts(bw, reserved, second, true, |d.ues|, d);
      var e := HighPass(bw, second, c);
      PassFacts(bw, reserved, second, false, |e.ues|, e);
      LaterTransitive(c, d, e);
      LaterTransitive(c, e, Round(bw, second, active, c));
    }
  }

  lemma {:induction false} AllocateFacts(bw: Bandwidth, reserved: RbgMap, active: nat, c: Cell)
    requires Opening(bw, reserved, c)
    ensures CellInv(bw, reserved, true, Allocate(bw, active, c))
    ensures Later(c, Allocate(bw, active, c))
  {
    RoundFacts(bw, reserved, false, active, c);
    var d := Round(bw, false, active, c);
    RoundFacts(bw, reserved, true, active, d);
    LaterTransitive(c, d, Allocate(bw, active, c));
  }

  /** No group goes to two UEs or was reserved; every UE is credited with exactly its groups;
      granted, reserved and free blocks add up to the bandwidth. */
  lemma {:induction false} AllocationIsExclusiveAndConserves(bw: Bandwidth, reserved: RbgMap, active: nat, c: Cell)
    requires Opening(bw, reserved, c)
    ensures Exclusive(reserved, Allocate(bw, active, c)) && Conserved(bw, reserved, Allocate(bw, active, c))
  {
    AllocateFacts(bw, reserved, active, c);
  }

  /** What the clamp on the 2-block group can add at 50 blocks. */
  function ClampExcess(bw: Bandwidth, u: Alloc): nat {
    if bw == 50 && u.rbgs[NbRbg(bw) - 1] then 1 else 0
  }

  /** No UE is granted more than its demand, but for one block of a clamped last group at 50 blocks;
      after the first round, no more than its share. */
  lemma {:induction false} GrantBound(bw: Bandwidth, reserved: RbgMap, active: nat, c: Cell, j: nat)
    requires Opening(bw, reserved, c) && j < |c.ues|
    ensures
      var u := Allocate(bw, active, c).ues[j];
      u.available <= c.ues[j].required + ClampExcess(bw, u)
    ensures
      var u := Round(bw, false, active, c).ues[j];
      u.available <= c.ues[j].remaining1 + ClampExcess(bw, u)
  {
    AllocateFacts(bw, reserved, active, c);
    RoundFacts(bw, reserved, false, active, c);
  }

  lemma {:induction false} NothingLeftToTake(bw: Bandwidth, n: nat, t: Turn)
    requires n <= NbRbg(bw) && t.ue.remaining == 0
    ensures OfferAll(bw, n, t) == t
  {
    if n == 0 {
    } else {
      NothingLeftToTake(bw, n - 1, t);
    }
  }

  /** At 50 blocks, a UE that wants four takes group 0 and then passes over all groups but the last. */
  lemma {:induction false} FourBlockTurn(n: nat, t: Turn)
    requires 1 <= n <= 16 && t == Turn(EmptyMap(), Alloc(4, 4, 4, 0, EmptyMap(), true))
    ensures OfferAll(50, n, t) == Turn(t.vrb[0 := true], Alloc(4, 1, 4, 3, EmptyMap()[0 := true], true))
  {
    if n == 1 {
      assert OfferAll(50, 0, t) == t;
    } else {
      FourBlockTurn(n - 1, t);
    }
  }

  lemma {:induction false} OneMoreOffer(bw: Bandwidth, n: nat, t: Turn)
    requires n < NbRbg(bw)
    ensures OfferAll(bw, n + 1, t) == Offer(bw, n, OfferAll(bw, n, t))
  {
  }

  /** The last group, of two blocks, is then taken for the one block still wanted. */
  lemma {:induction false} ClampedTurn(n: nat, u: Turn)
    requires n == NbRbg(50) - 1 && !u.vrb[n] && !u.ue.rbgs[n]
    requires u.ue.required == u.ue.remaining1 == 4 && u.ue.remaining == 1 && u.ue.available == 3 && u.ue.high
    ensures var u' := Offer(50, n, u).ue;
      u'.required == u'.remaining1 == 4 && u'.available == 5 && u'.remaining == 0 && u'.high
  {
    U16Small(5);
  }

  lemma {:induction false} FiveBlockTurn(n: nat, t: Turn) returns (t': Turn)
    requires n == NbRbg(50) - 1 && t == Turn(EmptyMap(), Alloc(4, 4, 4, 0, EmptyMap(), true))
    ensures t' == OfferAll(50, NbRbg(50), t)
    ensures t'.ue.required == t'.ue.remaining1 == 4 && t'.ue.available == 5 && t'.ue.remaining == 0 && t'.ue.high
  {
    FourBlockTurn(n, t);
    OneMoreOffer(50, n, t);
    ClampedTurn(n, OfferAll(50, n, t));
    t' := OfferAll(50, n + 1, t);
  }

  /** The extra block is really granted: a single UE that wants four blocks of 50 is granted five. */
  lemma {:induction false} GrantBoundIsSharp()
    ensures var c := Cell(EmptyMap(), [Alloc(4, 0, 4, 0, EmptyMap(), true)]);
      Opening(50, EmptyMap(), c) && Allocate(50, 1, c).ues[0].available == 5
  {
    var c := Cell(EmptyMap(), [Alloc(4, 0, 4, 0, EmptyMap(), true)]);
    var t := Turn(EmptyMap(), Alloc(4, 4, 4, 0, EmptyMap(), true));
    var t' := FiveBlockTurn(16, t);
    assert PrepareAll(false, c.ues) == [t.ue];
    OnlyHighUe(50, false, c, t, t');
    SecondTurnIsIdle(c, t');
  }

  lemma {:induction false} SecondTurnIsIdle(c: Cell, t: Turn)
    requires |c.ues| == 1 && Round(50, false, 1, c) == Cell(t.vrb, [t.ue])
    requires t.ue.required == t.ue.remaining1 == 4 && t.ue.remaining == 0 && t.ue.high
    ensures Allocate(50, 1, c).ues[0] == t.ue
  {
    var d := Cell(t.vrb, [t.ue]);
    assert PrepareAll(true, d.ues) == [t.ue];
    NothingLeftToTake(50, NbRbg(50), t);
    OnlyHighUe(50, true, d, t, t);
  }

  /** A round of a cell with a single UE, which has high priority, is that UE's turn. */
  lemma {:induction false} OnlyHighUe(bw: Bandwidth, second: bool, c: Cell, t: Turn, t': Turn)
    requires |c.ues| == 1 && PrepareAll(second, c.ues) == [t.ue] && t.vrb == c.vrb && t.ue.high && t.ue.required > 0
    requires t' == OfferAll(bw, NbRbg(bw), t) && t'.ue.high
    ensures Round(bw, second, 1, c) == Cell(t'.vrb, [t'.ue])
  {
    var p := Cell(c.vrb, [t.ue]);
    assert Pass(bw, true, 0, p) == p;
    assert HighPass(bw, second, c) == Serve(bw, 0, p);
    assert [t.ue][0 := t'.ue] == [t'.ue];
    var e := Cell(t'.vrb, [t'.ue]);
    assert Pass(bw, false, 0, e) == e;
  }

  /** Does the UE miss less than what group `i` would have given it? */
  predicate ShortOfLessThan(bw: Bandwidth, i: nat, u: Alloc) {
    u.required - u.available < Needed(bw, i)
  }

  lemma {:induction false} ExhaustedIsShort(bw: Bandwidth, v: RbgMap, u: Alloc, i: nat)
    requires i < NbRbg(bw) && !v[i] && Exhausted(bw, NbRbg(bw), v, u) && Balanced(bw, u, u.required)
    ensures ShortOfLessThan(bw, i, u)
  {
  }

  /** If a UE was counted as active and group `i` is free at the end, no UE could have used that group:
      each is short of its demand by less than one unit, or by nothing if `i` is the short last group. */
  lemma {:induction false} WorkConservation(bw: Bandwidth, reserved: RbgMap, active: nat, c: Cell, i: nat, j: nat)
    requires Opening(bw, reserved, c) && active > 0 && j < |c.ues| && i < NbRbg(bw)
    requires !Allocate(bw, active, c).vrb[i]
    ensures ShortOfLessThan(bw, i, Allocate(bw, active, c).ues[j])
  {
    var d := Round(bw, false, active, c);
    RoundFacts(bw, reserved, false, active, c);
    PrepareFacts(bw, reserved, true, d);
    var p := Cell(d.vrb, PrepareAll(true, d.ues));
    var h := HighPass(bw, true, d);
    PassFacts(bw, reserved, true, true, |p.ues|, p);
    PassExhausts(bw, reserved, true, true, |p.ues|, p);
    PassFacts(bw, reserved, true, false, |h.ues|, h);
    PassExhausts(bw, reserved, true, false, |h.ues|, h);
    PassSkips(bw, false, |h.ues|, h);
    var e := Allocate(bw, active, c);
    if e.ues[j].required > 0 {
      if e.ues[j].high {
        ExhaustedLater(bw, h.vrb, e.vrb, h.ues[j]);
      }
      ExhaustedIsShort(bw, e.vrb, e.ues[j], i);
    }
  }

  /** Once the high-priority UEs had their turn in the first round, none of them can use a group still free. */
  lemma {:induction false} HighUesServedFirst(bw: Bandwidth, reserved: RbgMap, c: Cell, i: nat, h: nat)
    requires Opening(bw, reserved, c) && h < |c.ues| && i < NbRbg(bw)
    requires c.ues[h].high && c.ues[h].required > 0 && c.ues[h].remaining1 == c.ues[h].required
    requires !HighPass(bw, false, c).vrb[i]
    ensures ShortOfLessThan(bw, i, HighPass(bw, false, c).ues[h])
  {
    PrepareFacts(bw, reserved, false, c);
    var d := Cell(c.vrb, PrepareAll(false, c.ues));
    PassFacts(bw, reserved, false, true, |d.ues|, d);
    PassExhausts(bw, reserved, false, true, |d.ues|, d);
    var e := HighPass(bw, false, c);
    ExhaustedIsShort(bw, e.vrb, e.ues[h], i);
  }

  /** From the high-priority pass of the first round to the end, low-priority UEs only gain groups that were free. */
  lemma {:induction false} LowUesTakeTheRest(bw: Bandwidth, reserved: RbgMap, active: nat, c: Cell, l: nat, i: nat)
    requires Opening(bw, reserved, c) && active > 0 && l < |c.ues| && i < NbRbg(bw) && !c.ues[l].high
    requires Allocate(bw, active, c).ues[l].rbgs[i]
    ensures !HighPass(bw, false, c).vrb[i]
    ensures Later(HighPass(bw, false, c), Allocate(bw, active, c))
  {
    PrepareFacts(bw, reserved, false, c);
    var d := Cell(c.vrb, PrepareAll(false, c.ues));
    PassFacts(bw, reserved, false, true, |d.ues|, d);
    PassSkips(bw, true, |d.ues|, d);
    var e := HighPass(bw, false, c);
    assert !e.ues[l].rbgs[i];
    PassFacts(bw, reserved, false, false, |e.ues|, e);
    var f := Round(bw, false, active, c);
    RoundFacts(bw, reserved, true, active, f);
    LaterTransitive(e, f, Allocate(bw, active, c));
  }

  /** No priority inversion: if a low-priority UE ends up with group `i`, then no high-priority UE
      is short of its demand by as much as that group would have given it. */
  lemma {:induction false} NoPriorityInversion(bw: Bandwidth, reserved: RbgMap, active: nat, c: Cell, l: nat, h: nat,
                                               i: nat)
    requires Opening(bw, reserved, c) && active > 0 && l < |c.ues| && h < |c.ues| && i < NbRbg(bw)
    requires !c.ues[l].high && c.ues[h].high
    requires c.ues[h].required > 0 ==> c.ues[h].remaining1 == c.ues[h].required
    requires Allocate(bw, active, c).ues[l].rbgs[i]
    ensures ShortOfLessThan(bw, i, Allocate(bw, active, c).ues[h])
  {
    LowUesTakeTheRest(bw, reserved, active, c, l, i);
    AllocateFacts(bw, reserved, active, c);
    if c.ues[h].required > 0 {
      HighUesServedFirst(bw, reserved, c, i, h);
    }
  }

  /** A UE that wants nothing is given nothing. */
  lemma {:induction false} IdleGetsNothing(bw: Bandwidth, active: nat, c: Cell, j: nat)
    requires j < |c.ues| && c.ues[j].required == 0
    ensures Allocate(bw, active, c).ues[j] == c.ues[j]
  {
    IdleRound(bw, false, active, c, j);
    IdleRound(bw, true, active, Round(bw, false, active, c), j);
  }

  lemma {:induction false} IdleRound(bw: Bandwidth, second: bool, active: nat, c: Cell, j: nat)
    requires j < |c.ues| && c.ues[j].required == 0
    ensures Round(bw, second, active, c).ues[j] == c.ues[j]
  {
    var d := Cell(c.vrb, PrepareAll(second, c.ues));
    PassSkips(bw, true, |d.ues|, d);
    var e := HighPass(bw, second, c);
    PassSkips(bw, false, |e.ues|, e);
  }

  /** What a single UE can rely on. */
  lemma {:induction false} UeOutcome(bw: Bandwidth, reserved: RbgMap, active: nat, c: Cell, j: nat)
    requires Opening(bw, reserved, c) && j < |c.ues|
    ensures
      var u := Allocate(bw, active, c).ues[j];
      && u.required == c.ues[j].required && u.high == c.ues[j].high
      && u.available == Rbs(bw, u.rbgs) && u.available <= bw
      && u.available <= u.required + ClampExcess(bw, u)
      && (u.required == 0 ==> u.available == 0)
      && DisjointMaps(u.rbgs, reserved)
  {
    AllocateFacts(bw, reserved, active, c);
    GrantBound(bw, reserved, active, c, j);
    GroupsFillTheCell(bw, Allocate(bw, active, c).ues[j].rbgs);
    if c.ues[j].required == 0 {
      IdleGetsNothing(bw, active, c, j);
    }
  }

  lemma {:induction false} TwoUesOutcome(bw: Bandwidth, reserved: RbgMap, active: nat, c: Cell, j: nat, l: nat)
    requires Opening(bw, reserved, c) && j < |c.ues| && l < |c.ues| && j != l
    ensures DisjointMaps(Allocate(bw, active, c).ues[j].rbgs, Allocate(bw, active, c).ues[l].rbgs)
  {
    AllocationIsExclusiveAndConserves(bw, reserved, active, c);
    var d := Allocate(bw, active, c);
    assert DisjointMaps(d.ues[j].rbgs, d.ues[l].rbgs) || DisjointMaps(d.ues[l].rbgs, d.ues[j].rbgs);
  }
}
