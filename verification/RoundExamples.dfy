/** Rounds exist for all inputs, and one in which a bitmap carries less than it should. */
module RoundExamples {
  import opened Bits
  import opened Options
  import opened Primitives
  import opened UeScheduling
  import opened Allocation
  import opened Preprocessor
  import opened PreprocessorRun
  import opened Policy
  import opened PolicyRun
  import HarqRuns

  // ---------- every round has an outcome ----------

  lemma {:induction false} WordWith(bw: Bandwidth, m: RbgMap, nbRb: int, n: nat) returns (w: nat)
    requires n <= NbRbg(bw)
    ensures forall k: nat :: Bit(w, k) <==> k < n && InShortestPrefix(bw, m, nbRb, NbRbg(bw) - 1 - k)
  {
    if n == 0 {
      w := 0;
      forall k: nat { ZeroBits(k); }
    } else {
      var rest := WordWith(bw, m, nbRb, n - 1);
      var marked := InShortestPrefix(bw, m, nbRb, NbRbg(bw) - n);
      w := if marked then BitOr(rest, Pow2(n - 1)) else rest;
      forall k: nat
        ensures Bit(w, k) <==> k < n && InShortestPrefix(bw, m, nbRb, NbRbg(bw) - 1 - k)
      {
        OrBits(rest, Pow2(n - 1), k);
        PowerBits(n - 1, k);
      }
    }
  }

  lemma {:induction false} BitmapExists(bw: Bandwidth, m: RbgMap, nbRb: int) returns (w: nat)
    ensures IsBitmapOf(w, bw, m, nbRb)
  {
    var n := NbRbg(bw);
    w := WordWith(bw, m, nbRb, n);
    BoundedBits(w, n);
    forall c: nat | c < n
      ensures Bit(w, n - 1 - c) <==> InShortestPrefix(bw, m, nbRb, c)
    {
      assert n - 1 - (n - 1 - c) == c;
    }
  }

  lemma {:induction false} SendExists(t: TbsTable, bw: Bandwidth, u: UeState, inp: UeInput, mcs0: nat)
    returns (u': UeState, sent: Option<Sent>, mcs: nat)
    requires StateFits(bw, u) && ReportOk(inp.report) && mcs0 <= MAX_MCS
    ensures SendStep(t, bw, u, inp, mcs0, u', sent, mcs) && mcs <= MAX_MCS
  {
    u', sent, mcs := u, None, mcs0;
    var p := NextHarq(u.harq, 0);
    if inp.cceFeasible && p != -1 && u.alloc.available != 0 {
      if u.harq.stats[p] > 0 {
        mcs := u.tx.mcs[p];
        var nbRb := u.alloc.required;
        if nbRb <= u.alloc.available {
          var w := BitmapExists(bw, u.alloc.rbgs, nbRb);
          u' := InFlight(u, p);
          sent := Some(Sent(Dci(p, u.tx.ndi[p], u.harq.stats[p] % 4, mcs, TbsDl(t, mcs, nbRb), w), nbRb, false));
        }
      } else {
        mcs := InputMcs(inp, mcs0);
        if inp.payload.Some? {
          var s;
          u', s, mcs := NewDataExists(t, bw, u, p, mcs, inp.payload.value);
          sent := Some(s);
        }
      }
    }
  }

  lemma {:induction false} NewDataExists(t: TbsTable, bw: Bandwidth, u: UeState, p: nat, m: nat, need: nat)
    returns (u': UeState, s: Sent, mcs: nat)
    requires StateFits(bw, u) && p < MAX_NUM_HARQ && m <= MAX_MCS
    ensures NewDataStep(t, bw, u, p, m, need, u', s, mcs) && mcs <= MAX_MCS
  {
    GridSearchBound(t, m, MinRbUnit(bw), u.alloc.available, need, StartRbs(bw, m));
    var nbRb := GridSearch(t, m, MinRbUnit(bw), u.alloc.available, need, StartRbs(bw, m));
    mcs := McsFor(t, nbRb, need, m);
    var w := BitmapExists(bw, u.alloc.rbgs, nbRb);
    u' := AfterNewData(u, p, nbRb, mcs);
    s := Sent(Dci(p, 1 - u.tx.ndi[p], u.harq.stats[p] % 4, mcs, TbsDl(t, mcs, nbRb), w), nbRb, true);
  }

  /** The second half of a round, for the first `n` UEs. */
  lemma {:induction false} SendsExist(t: TbsTable, bw: Bandwidth, mid: seq<UeState>, inps: seq<UeInput>, mcs0: nat,
                                      n: nat)
    returns (ms: seq<nat>, us': seq<UeState>, sents: seq<Option<Sent>>)
    requires InputsOk(mid, inps) && n <= |mid| && mcs0 <= MAX_MCS
    requires forall i | 0 <= i < |mid| :: StateFits(bw, mid[i])
    ensures AllSent(t, bw, mid, inps, n, ms, us', sents) && ms[0] == mcs0
  {
    if n == 0 {
      ms, us', sents := [mcs0], [], [];
    } else {
      var ms0, us0, sents0 := SendsExist(t, bw, mid, inps, mcs0, n - 1);
      var u', sent, mcs := SendExists(t, bw, mid[n - 1], inps[n - 1], ms0[n - 1]);
      ms, us', sents := ms0 + [mcs], us0 + [u'], sents0 + [sent];
      forall i | 0 <= i < n
        ensures SendStep(t, bw, mid[i], inps[i], ms[i], us'[i], sents[i], ms[i + 1])
      {
        if i < n - 1 {
          assert ms[i] == ms0[i] && us'[i] == us0[i] && sents[i] == sents0[i] && ms[i + 1] == ms0[i + 1];
        }
      }
    }
  }

  /** The outcome of the preprocessor for a serving order. */
  lemma {:induction false} PreprocessingExists(t: TbsTable, bw: Bandwidth, vrb: RbgMap, us: seq<UeState>,
                                               reports: seq<UeReport>, order: seq<nat>)
    returns (vrb': RbgMap, mid: seq<UeState>)
    requires |us| == |reports| && forall i | 0 <= i < |reports| :: ReportOk(reports[i])
    requires IsPermutation(order, |us|) && IsOrdered(StatsAll(OpenedAll(t, bw, us, reports), reports), order)
    ensures Preprocessed(t, bw, vrb, us, reports, order, vrb', mid)
    ensures var served := ChosenAll(Permuted(order, OpenedAll(t, bw, us, reports)));
      Permuted(order, mid) == Updated(served, GrantedCell(bw, vrb, served).ues)
  {
    var served := ChosenAll(Permuted(order, OpenedAll(t, bw, us, reports)));
    var d := GrantedCell(bw, vrb, served);
    var place := Inverse(order, |us|);
    var now := Updated(served, d.ues);
    vrb' := d.vrb;
    mid := seq(|us|, i requires 0 <= i < |us| => now[place[i]]);
    assert Permuted(order, mid) == now;
  }

  /** Where UE `u` belongs among the first `k` of the order, if it comes before all others. */
  lemma {:induction false} PlaceFor(stats: seq<UeStats>, order: seq<nat>, u: nat, k: nat) returns (place: nat)
    requires IsOrdered(stats, order) && u < |stats| && k <= |order|
    requires forall i | k <= i < |order| :: CompareStats(stats[u], stats[order[i]])
    ensures place <= |order| && (place > 0 ==> CompareStats(stats[order[place - 1]], stats[u]))
    ensures forall i | place <= i < |order| :: CompareStats(stats[u], stats[order[i]])
  {
    if k == 0 || CompareStats(stats[order[k - 1]], stats[u]) {
      place := k;
    } else {
      CompareStatsIsTotalPreorder(stats[u], stats[order[k - 1]], stats[u]);
      place := PlaceFor(stats, order, u, k - 1);
    }
  }

  lemma {:induction false} OrderExists(stats: seq<UeStats>, n: nat) returns (order: seq<nat>)
    requires n <= |stats|
    ensures IsPermutation(order, n) && IsOrdered(stats, order)
  {
    if n == 0 {
      order := [];
    } else {
      var before := OrderExists(stats, n - 1);
      var place := PlaceFor(stats, before, n - 1, |before|);
      InsertKeepsPermutation(before, place, n - 1);
      InsertKeepsOrder(stats, before, place, n - 1);
      order := InsertedAt(before, place, n - 1);
    }
  }

  /** For any UEs and inputs there is a round. */
  lemma {:induction false} EveryInputHasARound(t: TbsTable, bw: Bandwidth, us: seq<UeState>, inps: seq<UeInput>,
                                               mcs0: nat)
    returns (x: Inside, us': seq<UeState>, sents: seq<Option<Sent>>)
    requires InputsOk(us, inps) && RecordsFit(bw, us) && mcs0 <= MAX_MCS
    ensures RoundStep(t, bw, us, inps, x, us', sents)
  {
    var order := OrderExists(StatsAll(OpenedAll(t, bw, us, Reports(inps)), Reports(inps)), |us|);
    x, us', sents := RoundExists(t, bw, us, inps, order, mcs0);
  }

  /** There is a round for any serving order of the preprocessor. */
  lemma {:induction false} RoundExists(t: TbsTable, bw: Bandwidth, us: seq<UeState>, inps: seq<UeInput>,
                                       order: seq<nat>, mcs0: nat)
    returns (x: Inside, us': seq<UeState>, sents: seq<Option<Sent>>)
    requires InputsOk(us, inps) && RecordsFit(bw, us) && mcs0 <= MAX_MCS
    requires IsPermutation(order, |us|)
    requires IsOrdered(StatsAll(OpenedAll(t, bw, us, Reports(inps)), Reports(inps)), order)
    ensures RoundStep(t, bw, us, inps, x, us', sents) && x.order == order
    ensures var served := ChosenAll(Permuted(order, OpenedAll(t, bw, us, Reports(inps))));
      Permuted(order, x.mid) == Updated(served, GrantedCell(bw, EmptyMap(), served).ues)
  {
    var vrb, mid := PreprocessingExists(t, bw, EmptyMap(), us, Reports(inps), order);
    HandOverFits(t, bw, us, inps, order, vrb, mid);
    var ms;
    ms, us', sents := SendsExist(t, bw, mid, inps, mcs0, |us|);
    x := Inside(order, vrb, mid, ms);
  }

  // ---------- a bitmap that falls short ----------

  /** Exactly the groups from `a` up to `b` are marked. */
  function Between(a: nat, b: nat): RbgMap {
    seq(N_RBG_MAX, i => a <= i < b)
  }

  lemma {:induction false} BetweenMore(a: nat, b: nat)
    requires a <= b < N_RBG_MAX
    ensures Between(a, b)[b := true] == Between(a, b + 1)
  {
  }

  /** A UE that wants `w` blocks and took those between `a` and `b`. */
  function Took(a: nat, b: nat, w: nat): Turn
    requires a <= b <= a + w
  {
    Turn(Between(0, b), Alloc(w, w - (b - a), w, b - a, Between(a, b), true))
  }

  lemma {:induction false} OfferInSix(bw: Bandwidth, a: nat, w: nat, n: nat, b: nat)
    requires bw == 6 && a <= 6 && 0 < w <= 6 && n < 6
    requires b == if n <= a then a else if n <= a + w then n else a + w
    ensures Offer(bw, n, Took(a, b, w)) == if a <= n < a + w then Took(a, n + 1, w) else Took(a, b, w)
  {
    if a <= n < a + w {
      BetweenMore(0, n);
      BetweenMore(a, n);
      if w - (n - a) - 1 > 0 {
        U16Small(w - (n - a) - 1);
      }
      U16Small(n - a + 1);
    }
  }

  /**
   * A turn in a cell of six single-block groups whose first `a` are taken: the UE takes the next `w`, as far
   * as there are any.
   */
  lemma {:induction false} TurnInSix(bw: Bandwidth, a: nat, w: nat, n: nat)
    requires bw == 6 && a <= 6 && 0 < w <= 6 && n <= 6
    ensures OfferAll(bw, n, Took(a, a, w)) == Took(a, if n <= a then a else if n <= a + w then n else a + w, w)
  {
    if n == 0 {
    } else {
      TurnInSix(bw, a, w, n - 1);
      OneMoreOffer(bw, n - 1, Took(a, a, w));
      OfferInSix(bw, a, w, n - 1, if n - 1 <= a then a else if n - 1 <= a + w then n - 1 else a + w);
    }
  }

  /** Nothing is taken from a full map. */
  lemma {:induction false} FullMap(bw: Bandwidth, n: nat, t: Turn)
    requires bw == 6 && n <= 6 && t.vrb == Between(0, 6)
    ensures OfferAll(bw, n, t) == t
  {
    if n == 0 {
    } else {
      FullMap(bw, n - 1, t);
      OneMoreOffer(bw, n - 1, t);
    }
  }

  /** A round of a cell with two UEs of high priority is a turn of the one and then of the other. */
  lemma {:induction false} TwoHighUes(bw: Bandwidth, second: bool, c: Cell, a: Alloc, b: Alloc, t: Turn, u: Turn)
    requires |c.ues| == 2 && PrepareAll(second, c.ues) == [a, b]
    requires a.high && b.high && a.required > 0 && b.required > 0
    requires t == OfferAll(bw, NbRbg(bw), Turn(c.vrb, a)) && t.ue.high
    requires u == OfferAll(bw, NbRbg(bw), Turn(t.vrb, b)) && u.ue.high
    ensures Round(bw, second, 2, c) == Cell(u.vrb, [t.ue, u.ue])
  {
    var p := Cell(c.vrb, [a, b]);
    var q := Cell(t.vrb, [t.ue, b]);
    var r := Cell(u.vrb, [t.ue, u.ue]);
    assert Pass(bw, true, 0, p) == p;
    assert [a, b][0 := t.ue] == [t.ue, b] && [t.ue, b][1 := u.ue] == [t.ue, u.ue];
    assert Serve(bw, 0, p) == q && Serve(bw, 1, q) == r;
    assert Pass(bw, true, 1, p) == q;
    assert Pass(bw, true, 2, p) == r;
    assert HighPass(bw, second, c) == r;
    NoneServed(bw, 2, r);
  }

  lemma {:induction false} NoneServed(bw: Bandwidth, n: nat, c: Cell)
    requires n <= |c.ues| && forall j | 0 <= j < |c.ues| :: c.ues[j].high
    ensures Pass(bw, false, n, c) == c
  {
    if n == 0 {
    } else {
      NoneServed(bw, n - 1, c);
    }
  }

  lemma {:induction false} PrepareTwo(ues: seq<Alloc>)
    requires ues == [Alloc(5, 0, 5, 0, Between(0, 0), true), Alloc(4, 0, 4, 0, Between(0, 0), true)]
    ensures PrepareAll(false, ues) == [Took(0, 0, 5).ue, Took(5, 5, 4).ue]
  {
    assert Between(0, 0) == Between(5, 5);
  }

  /** The first round, in which two UEs of high priority that want five and four of six blocks get five and one. */
  lemma {:induction false} FirstRound(bw: Bandwidth, c: Cell)
    requires bw == 6
    requires c == Cell(Between(0, 0), [Alloc(5, 0, 5, 0, Between(0, 0), true), Alloc(4, 0, 4, 0, Between(0, 0), true)])
    ensures Round(bw, false, 2, c) == Cell(Between(0, 6), [Took(0, 5, 5).ue, Took(5, 6, 4).ue])
  {
    PrepareTwo(c.ues);
    TurnInSix(bw, 0, 5, NbRbg(bw));
    TurnInSix(bw, 5, 4, NbRbg(bw));
    TwoHighUes(bw, false, c, Took(0, 0, 5).ue, Took(5, 5, 4).ue, Took(0, 5, 5), Took(5, 6, 4));
  }

  /** In the second round nothing is left. */
  lemma {:induction false} SecondRound(bw: Bandwidth, c: Cell)
    requires bw == 6 && c == Cell(Between(0, 6), [Took(0, 5, 5).ue, Took(5, 6, 4).ue])
    ensures Round(bw, true, 2, c) == c
  {
    var a, b := Took(0, 5, 5).ue, Took(5, 6, 4).ue;
    assert PrepareAll(true, c.ues) == [a, b];
    FullMap(bw, NbRbg(bw), Turn(c.vrb, a));
    FullMap(bw, NbRbg(bw), Turn(c.vrb, b));
    TwoHighUes(bw, true, c, a, b, Turn(c.vrb, a), Turn(c.vrb, b));
  }

  lemma {:induction false} FiveAndOne(bw: Bandwidth, c: Cell)
    requires bw == 6
    requires c == Cell(Between(0, 0), [Alloc(5, 0, 5, 0, Between(0, 0), true), Alloc(4, 0, 4, 0, Between(0, 0), true)])
    ensures Allocate(bw, 2, c).ues[1] == Alloc(4, 3, 4, 1, Between(5, 6), true)
  {
    FirstRound(bw, c);
    SecondRound(bw, Round(bw, false, 2, c));
  }

  /**
   * A UE with one logical channel, the lowest CQI, and this many bytes queued. A short queue is carried whole,
   * behind a subheader of one byte.
   */
  function Asking(bytes: nat): UeInput {
    UeInput(UeReport([RlcReport(3, bytes, 0)], Some(0), Some(1)), true, Some(bytes + 1))
  }

  /** The sizes that the code's table has for four and five blocks at the lowest MCS. */
  predicate HasFirstRow(t: TbsTable) {
    t[0][3] == 88 && t[0][4] == 120
  }

  lemma {:induction false} AskingDemands(t: TbsTable, u: UeState, bytes: nat)
    requires HasFirstRow(t) && (bytes == 12 || bytes == 5) && u.harq == FreshHarq()
    ensures var v := Chosen(Opened(t, 6, u, Asking(bytes).report));
      v.alloc == Alloc(if bytes == 12 then 5 else 4, 0, 0, 0, EmptyMap(), true) && v.harq == FreshHarq()
    ensures StatsOf(FreshHarq(), Asking(bytes).report) == UeStats(0, 0, 0, bytes, 0)
  {
    var rlc := [RlcReport(3, bytes, 0)];
    assert rlc[..0] == [] && QueuedBytes(rlc) == bytes && CcchBytes(rlc) == 0 && MaxHolDelay(rlc) == 0;
    assert TbsDl(t, 0, 4) == 11 && TbsDl(t, 0, 5) == 15;
    assert NextHarq(FreshHarq(), 0) == 0;
  }

  /** The UEs of the example in serving order, and what the rounds make of them. */
  lemma {:induction false} AskingOpens(served: seq<UeState>)
    requires |served| == 2 && served[0].harq == served[1].harq == FreshHarq()
    requires served[0].alloc == Alloc(5, 0, 0, 0, EmptyMap(), true)
    requires served[1].alloc == Alloc(4, 0, 0, 0, EmptyMap(), true)
    ensures GrantedCell(6, EmptyMap(), served).ues[1] == Alloc(4, 3, 4, 1, Between(5, 6), true)
  {
    assert NextHarq(FreshHarq(), 0) == 0;
    assert ActiveCount(served, 0) == 0;
    assert ActiveCount(served, 1) == 1;
    assert ActiveCount(served, 2) == 2;
    assert EmptyMap() == Between(0, 0);
    var c := OpeningCell(6, EmptyMap(), served);
    assert c.ues == [Alloc(5, 0, 5, 0, Between(0, 0), true), Alloc(4, 0, 4, 0, Between(0, 0), true)];
    FiveAndOne(6, c);
  }

  /** One block granted, five bytes queued and six to carry: the transport block is sized for four blocks. */
  lemma {:induction false} AskingSends(t: TbsTable, u: UeState, mcs0: nat, u': UeState, sent: Option<Sent>, mcs: nat)
    requires HasFirstRow(t) && StateFits(6, u) && mcs0 <= MAX_MCS && u.harq == FreshHarq()
    requires u.alloc == Alloc(4, 3, 4, 1, Between(5, 6), true)
    requires SendStep(t, 6, u, Asking(5), mcs0, u', sent, mcs)
    ensures sent.Some? && sent.value.nbRb == 4
  {
    assert NextHarq(FreshHarq(), 0) == 0;
    assert TbsDl(t, 0, 4) == 11;
  }

  /** One UE in a round. */
  lemma {:induction false} RoundAt(t: TbsTable, us: seq<UeState>, inps: seq<UeInput>, x: Inside, us': seq<UeState>,
                                   sents: seq<Option<Sent>>, i: nat)
    requires i < |us| == |x.mid| == |us'| == |sents| == |inps| && |x.mcs| == |us| + 1
    requires InputsOk(us, inps) && RecordsFit(6, us) && RoundStep(t, 6, us, inps, x, us', sents)
    ensures StateFits(6, x.mid[i]) && ReportOk(inps[i].report) && x.mcs[i] <= MAX_MCS
    ensures SendStep(t, 6, x.mid[i], inps[i], x.mcs[i], us'[i], sents[i], x.mcs[i + 1])
    ensures x.mid[i].alloc.available == Rbs(6, x.mid[i].alloc.rbgs)
  {
    HandOver(t, 6, EmptyMap(), us, Reports(inps), x.order, x.vrb, x.mid);
  }

  lemma {:induction false} SecondOfTwo(order: seq<nat>, mid: seq<UeState>, served: seq<UeState>, allocs: seq<Alloc>)
    requires order == [0, 1] && |mid| == |served| == |allocs| == 2
    requires Permuted(order, mid) == Updated(served, allocs)
    ensures mid[1].alloc == allocs[1] && mid[1].harq == served[1].harq
  {
    assert Permuted(order, mid)[1] == mid[1];
  }

  /** The inputs and the serving order of the example. */
  function ExampleUes(): seq<UeState> {
    [HarqRuns.FreshUe(), HarqRuns.FreshUe()]
  }

  function ExampleInputs(): seq<UeInput> {
    [Asking(12), Asking(5)]
  }

  lemma {:induction false} ExampleIsOrdered(t: TbsTable, order: seq<nat>)
    requires HasFirstRow(t) && order == [0, 1]
    ensures InputsOk(ExampleUes(), ExampleInputs()) && RecordsFit(6, ExampleUes()) && IsPermutation(order, 2)
    ensures var reports := Reports(ExampleInputs());
      IsOrdered(StatsAll(OpenedAll(t, 6, ExampleUes(), reports), reports), order)
  {
    assert order[0] == 0 && order[1] == 1;
    AskingDemands(t, HarqRuns.FreshUe(), 12);
    AskingDemands(t, HarqRuns.FreshUe(), 5);
  }

  lemma {:induction false} ExampleGrants(t: TbsTable, order: seq<nat>)
    requires HasFirstRow(t) && order == [0, 1] && InputsOk(ExampleUes(), ExampleInputs())
    ensures var served := ChosenAll(Permuted(order, OpenedAll(t, 6, ExampleUes(), Reports(ExampleInputs()))));
      && |served| == |GrantedCell(6, EmptyMap(), served).ues| == 2 && served[1].harq == FreshHarq()
      && GrantedCell(6, EmptyMap(), served).ues[1] == Alloc(4, 3, 4, 1, Between(5, 6), true)
  {
    AskingDemands(t, HarqRuns.FreshUe(), 12);
    AskingDemands(t, HarqRuns.FreshUe(), 5);
    AskingOpens(ChosenAll(Permuted(order, OpenedAll(t, 6, ExampleUes(), Reports(ExampleInputs())))));
  }

  lemma {:induction false} ShortSecond(t: TbsTable, x: Inside, us': seq<UeState>, sents: seq<Option<Sent>>)
    requires HasFirstRow(t) && |x.mid| == |us'| == |sents| == 2 && |x.mcs| == 3
    requires x.mid[1].harq == FreshHarq() && x.mid[1].alloc == Alloc(4, 3, 4, 1, Between(5, 6), true)
    requires InputsOk(ExampleUes(), ExampleInputs()) && RecordsFit(6, ExampleUes())
    requires RoundStep(t, 6, ExampleUes(), ExampleInputs(), x, us', sents)
    ensures sents[1].Some? && sents[1].value.nbRb == 4
    ensures Rbs(6, PrefixMap(6, x.mid[1].alloc.rbgs, 4)) == 1
  {
    RoundAt(t, ExampleUes(), ExampleInputs(), x, us', sents, 1);
    AskingSends(t, x.mid[1], x.mcs[1], us'[1], sents[1], x.mcs[2]);
    BitmapCarries(6, x.mid[1].alloc.rbgs, 4);
  }

  /**
   * Six blocks and two new UEs at the lowest MCS, with 12 and 5 bytes queued: the first is granted five blocks
   * and the second one. The second's transport block is sized for four blocks, and its bitmap carries one.
   */
  lemma {:induction false} BitmapCanFallShort(t: TbsTable)
    returns (x: Inside, us': seq<UeState>, sents: seq<Option<Sent>>)
    requires HasFirstRow(t)
    ensures |x.mid| == |sents| == 2 && sents[1].Some? && sents[1].value.nbRb == 4
    ensures Rbs(6, PrefixMap(6, x.mid[1].alloc.rbgs, 4)) == 1
    ensures InputsOk(ExampleUes(), ExampleInputs()) && RecordsFit(6, ExampleUes())
    ensures RoundStep(t, 6, ExampleUes(), ExampleInputs(), x, us', sents)
  {
    var order: seq<nat> := [0, 1];
    ExampleIsOrdered(t, order);
    x, us', sents := RoundExists(t, 6, ExampleUes(), ExampleInputs(), order, 0);
    ExampleGrants(t, order);
    var served := ChosenAll(Permuted(order, OpenedAll(t, 6, ExampleUes(), Reports(ExampleInputs()))));
    SecondOfTwo(order, x.mid, served, GrantedCell(6, EmptyMap(), served).ues);
    ShortSecond(t, x, us', sents);
  }
}
