/** What a scheduling round does for all UEs of a cell together, whatever order they are served in. */
module RoundProofs {
  import opened Primitives
  import opened Sequences
  import opened UeScheduling
  import opened Allocation
  import opened Preprocessor
  import opened PreprocessorRun
  import opened PolicyRun

  lemma {:induction false} SomeoneIsCounted(us: seq<UeState>, n: nat, k: nat)
    requires k < n <= |us| && IsActive(us[k].alloc, us[k].harq)
    ensures ActiveCount(us, n) > 0
  {
    if k == n - 1 {
    } else {
      SomeoneIsCounted(us, n - 1, k);
    }
  }

  /** The UEs, in serving order, are those of a cell `c` after both allocation rounds. */
  ghost predicate ServedAs(bw: Bandwidth, vrb: RbgMap, order: seq<nat>, vrb': RbgMap, mid: seq<UeState>,
                           active: nat, c: Cell)
    requires IsPermutation(order, |mid|)
  {
    && Opening(bw, vrb, c) && |c.ues| == |mid|
    && vrb' == Allocate(bw, active, c).vrb
    && (forall k | 0 <= k < |order| ::
      && mid[order[k]].alloc == Allocate(bw, active, c).ues[k]
      && mid[order[k]].alloc.required == c.ues[k].required && mid[order[k]].alloc.high == c.ues[k].high
      && (c.ues[k].high && c.ues[k].required > 0 ==> c.ues[k].remaining1 == c.ues[k].required))
  }

  lemma {:induction false} OneServed(bw: Bandwidth, vrb: RbgMap, active: nat, order: seq<nat>, mid: seq<UeState>,
                                     served: seq<UeState>, c: Cell, k: nat)
    requires IsPermutation(order, |mid|) && |mid| == |served| == |c.ues| && k < |order| && Opening(bw, vrb, c)
    requires c == OpeningCell(bw, vrb, served) && |Allocate(bw, active, c).ues| == |served|
    requires Permuted(order, mid) == Updated(served, Allocate(bw, active, c).ues)
    ensures var u := Allocate(bw, active, c).ues[k];
      && mid[order[k]].alloc == u && mid[order[k]].harq == served[k].harq
      && u.required == c.ues[k].required == served[k].alloc.required && u.high == c.ues[k].high
    ensures c.ues[k].high && c.ues[k].required > 0 ==> c.ues[k].remaining1 == c.ues[k].required
  {
    assert Permuted(order, mid)[k] == Updated(served, Allocate(bw, active, c).ues)[k];
    UeOutcome(bw, vrb, active, c, k);
  }

  /** Every round can be seen as an allocation to the UEs in serving order. */
  lemma {:induction false} RoundIsAllocation(t: TbsTable, bw: Bandwidth, vrb: RbgMap, us: seq<UeState>,
                                             reports: seq<UeReport>, order: seq<nat>, vrb': RbgMap, mid: seq<UeState>)
    returns (active: nat, c: Cell)
    requires |us| == |reports| && (forall i | 0 <= i < |reports| :: ReportOk(reports[i])) && RecordsFit(bw, us)
    requires Preprocessed(t, bw, vrb, us, reports, order, vrb', mid)
    ensures ServedAs(bw, vrb, order, vrb', mid, active, c)
    ensures (exists a | 0 <= a < |us| :: IsActive(mid[a].alloc, mid[a].harq)) ==> active > 0
  {
    var served := ChosenAll(Permuted(order, OpenedAll(t, bw, us, reports)));
    active, c := ActiveCount(served, |served|), OpeningCell(bw, vrb, served);
    OpeningHolds(t, bw, vrb, us, reports, order);
    var d := Allocate(bw, active, c);
    assert Permuted(order, mid) == Updated(served, d.ues);
    forall k | 0 <= k < |order|
      ensures mid[order[k]].alloc == d.ues[k] && mid[order[k]].harq == served[k].harq
      ensures d.ues[k].required == c.ues[k].required == served[k].alloc.required && d.ues[k].high == c.ues[k].high
      ensures c.ues[k].high && c.ues[k].required > 0 ==> c.ues[k].remaining1 == c.ues[k].required
    {
      OneServed(bw, vrb, active, order, mid, served, c, k);
    }
    if a :| 0 <= a < |us| && IsActive(mid[a].alloc, mid[a].harq) {
      var k := PlaceOf(order, a);
      SomeoneIsCounted(served, |served|, k);
    }
  }

  /** If some UE counts as active, a group is left free only when no UE could have used it. */
  lemma {:induction false} NoGroupIsWasted(t: TbsTable, bw: Bandwidth, vrb: RbgMap, us: seq<UeState>,
                                           reports: seq<UeReport>, order: seq<nat>, vrb': RbgMap, mid: seq<UeState>,
                                           a: nat, g: nat, i: nat)
    requires |us| == |reports| == |mid| && (forall i | 0 <= i < |reports| :: ReportOk(reports[i])) && RecordsFit(bw, us)
    requires a < |us| && IsActive(mid[a].alloc, mid[a].harq) && g < NbRbg(bw) && !vrb'[g] && i < |us|
    requires Preprocessed(t, bw, vrb, us, reports, order, vrb', mid)
    ensures ShortOfLessThan(bw, g, mid[i].alloc)
  {
    var active, c := RoundIsAllocation(t, bw, vrb, us, reports, order, vrb', mid);
    WorkConservation(bw, vrb, active, c, g, PlaceOf(order, i));
  }

  /** No high-priority UE misses as much as a group would give it that a low-priority UE of the cell got. */
  lemma {:induction false} PrioritiesAreRespected(t: TbsTable, bw: Bandwidth, vrb: RbgMap, us: seq<UeState>,
                                                  reports: seq<UeReport>, order: seq<nat>, vrb': RbgMap,
                                                  mid: seq<UeState>, a: nat, l: nat, h: nat, g: nat)
    requires |us| == |reports| == |mid| && (forall i | 0 <= i < |reports| :: ReportOk(reports[i])) && RecordsFit(bw, us)
    requires a < |us| && IsActive(mid[a].alloc, mid[a].harq) && l < |us| && h < |us| && g < NbRbg(bw)
    requires !mid[l].alloc.high && mid[l].alloc.rbgs[g] && mid[h].alloc.high
    requires Preprocessed(t, bw, vrb, us, reports, order, vrb', mid)
    ensures ShortOfLessThan(bw, g, mid[h].alloc)
  {
    var active, c := RoundIsAllocation(t, bw, vrb, us, reports, order, vrb', mid);
    NoPriorityInversion(bw, vrb, active, c, PlaceOf(order, l), PlaceOf(order, h), g);
  }

  // ---------- adding up ----------

  lemma {:induction false} GrantedPrefix(ues: seq<Alloc>, ues': seq<Alloc>, n: nat)
    requires n <= |ues| && n <= |ues'| && ues[..n] == ues'[..n]
    ensures Granted(ues, n) == Granted(ues', n)
  {
    if n == 0 {
    } else {
      assert ues[..n - 1] == ues[..n][..n - 1] && ues'[..n - 1] == ues'[..n][..n - 1];
      assert ues[n - 1] == ues[..n][n - 1] && ues'[n - 1] == ues'[..n][n - 1];
      GrantedPrefix(ues, ues', n - 1);
    }
  }

  lemma {:induction false} WithoutEarlier<T>(s: seq<T>, k: nat)
    requires k < |s| - 1
    ensures Without(s, k) == Without(s[..|s| - 1], k) + [s[|s| - 1]]
  {
  }

  lemma {:induction false} GrantedWithout(ues: seq<Alloc>, k: nat)
    requires k < |ues|
    ensures Granted(ues, |ues|) == Granted(Without(ues, k), |ues| - 1) + ues[k].available
  {
    var n := |ues|;
    if k == n - 1 {
      assert Without(ues, k) == ues[..n - 1];
      GrantedPrefix(ues, ues[..n - 1], n - 1);
    } else {
      var init := ues[..n - 1];
      GrantedWithout(init, k);
      GrantedPrefix(ues, init, n - 1);
      WithoutEarlier(ues, k);
      assert Without(ues, k)[..n - 2] == Without(init, k)[..n - 2];
      GrantedPrefix(Without(ues, k), Without(init, k), n - 2);
    }
  }

  lemma {:induction false} PermutationWithout(order: seq<nat>, n: nat, k: nat)
    requires n > 0 && IsPermutation(order, n) && k < n && order[k] == n - 1
    ensures IsPermutation(Without(order, k), n - 1)
  {
    var rest := Without(order, k);
    forall u: nat | u < n - 1
      ensures u in rest
    {
      var j := PlaceOf(order, u);
      assert rest[if j < k then j else j - 1] == u;
    }
  }

  /** What is granted in all does not depend on the order. */
  lemma {:induction false} GrantedInAnyOrder(ues: seq<Alloc>, order: seq<nat>)
    requires IsPermutation(order, |ues|)
    ensures Granted(Permuted(order, ues), |ues|) == Granted(ues, |ues|)
  {
    var n := |ues|;
    if n == 0 {
    } else {
      var k := PlaceOf(order, n - 1);
      var rest, init, p := Without(order, k), ues[..n - 1], Permuted(order, ues);
      PermutationWithout(order, n, k);
      GrantedInAnyOrder(init, rest);
      GrantedWithout(p, k);
      assert Without(p, k) == Permuted(rest, init);
      GrantedPrefix(ues, init, n - 1);
    }
  }

  lemma {:induction false} ServedBlocks(bw: Bandwidth, vrb: RbgMap, order: seq<nat>, vrb': RbgMap, mid: seq<UeState>,
                                        active: nat, c: Cell)
    requires IsPermutation(order, |mid|) && ServedAs(bw, vrb, order, vrb', mid, active, c)
    ensures Granted(AllocsOf(mid), |mid|) + Rbs(bw, vrb) + Rbs(bw, Complement(vrb')) == bw
  {
    var d := Allocate(bw, active, c);
    AllocationIsExclusiveAndConserves(bw, vrb, active, c);
    GrantedInAnyOrder(AllocsOf(mid), order);
    assert Permuted(order, AllocsOf(mid)) == d.ues;
  }

  /** Granted, reserved and free resource blocks add up to the bandwidth of the cell. */
  lemma {:induction false} BlocksAreConserved(t: TbsTable, bw: Bandwidth, vrb: RbgMap, us: seq<UeState>,
                                              reports: seq<UeReport>, order: seq<nat>, vrb': RbgMap, mid: seq<UeState>)
    requires |us| == |reports| && (forall i | 0 <= i < |reports| :: ReportOk(reports[i])) && RecordsFit(bw, us)
    requires Preprocessed(t, bw, vrb, us, reports, order, vrb', mid)
    ensures Granted(AllocsOf(mid), |mid|) + Rbs(bw, vrb) + Rbs(bw, Complement(vrb')) == bw
  {
    var active, c := RoundIsAllocation(t, bw, vrb, us, reports, order, vrb', mid);
    ServedBlocks(bw, vrb, order, vrb', mid, active, c);
  }
}
