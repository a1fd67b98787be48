/** A run in which a UE that left and came back reuses a HARQ process without feedback. */
module RejoinExample {
  import opened Options
  import opened Primitives
  import opened UeScheduling
  import opened Allocation
  import opened Preprocessor
  import opened PreprocessorRun
  import opened Policy
  import opened PolicyRun
  import opened HarqReuse
  import opened HarqRuns
  import A = Allocation
  import E = RoundExamples
  import R = RetransmissionRuns

  lemma {:induction false} PrepareOne(ues: seq<Alloc>)
    requires ues == [Alloc(4, 0, 4, 0, E.Between(0, 0), true)]
    ensures PrepareAll(false, ues) == [E.Took(0, 0, 4).ue]
  {
  }

  /** A single UE of high priority that wants four of six blocks gets them in the first round. */
  lemma {:induction false} FirstOfTwo(bw: Bandwidth, c: Cell)
    requires bw == 6 && c == Cell(E.Between(0, 0), [Alloc(4, 0, 4, 0, E.Between(0, 0), true)])
    ensures A.Round(bw, false, 1, c) == Cell(E.Between(0, 4), [E.Took(0, 4, 4).ue])
  {
    PrepareOne(c.ues);
    FourTaken(bw, 0, 4, NbRbg(bw));
    OnlyHighUe(bw, false, c, E.Took(0, 0, 4), E.Took(0, 4, 4));
  }

  lemma {:induction false} FourTaken(bw: Bandwidth, a: nat, w: nat, n: nat)
    requires bw == 6 && a <= n - w && n == 6 && 0 < w <= 6
    ensures OfferAll(bw, n, E.Took(a, a, w)) == E.Took(a, a + w, w)
  {
    E.TurnInSix(bw, a, w, n);
  }

  lemma {:induction false} SecondOfTwo(bw: Bandwidth, c: Cell)
    requires bw == 6 && c == Cell(E.Between(0, 4), [E.Took(0, 4, 4).ue])
    ensures A.Round(bw, true, 1, c) == c
  {
    var t := E.Took(0, 4, 4);
    assert PrepareAll(true, c.ues) == [t.ue];
    NothingLeftToTake(bw, NbRbg(bw), t);
    OnlyHighUe(bw, true, c, t, t);
  }

  lemma {:induction false} FourOfSix(bw: Bandwidth, c: Cell)
    requires bw == 6 && c == Cell(E.Between(0, 0), [Alloc(4, 0, 4, 0, E.Between(0, 0), true)])
    ensures Allocate(bw, 1, c).ues[0].available == 4
  {
    FirstOfTwo(bw, c);
    SecondOfTwo(bw, Cell(E.Between(0, 4), [E.Took(0, 4, 4).ue]));
  }

  lemma {:induction false} SoleGrant(served: seq<UeState>)
    requires |served| == 1 && served[0].harq == FreshHarq()
    requires served[0].alloc == Alloc(4, 0, 0, 0, EmptyMap(), true)
    ensures GrantedCell(6, EmptyMap(), served).ues[0].available == 4
  {
    assert NextHarq(FreshHarq(), 0) == 0;
    assert ActiveCount(served, 0) == 0;
    assert ActiveCount(served, 1) == 1;
    assert EmptyMap() == E.Between(0, 0);
    var c := OpeningCell(6, EmptyMap(), served);
    assert c.ues == [Alloc(4, 0, 4, 0, E.Between(0, 0), true)];
    FourOfSix(6, c);
  }

  /** The only UE of the cell, with five bytes queued, after the preprocessor. */
  lemma {:induction false} SoleHandOver(t: TbsTable, u: UeState, order: seq<nat>, vrb: RbgMap, mid: seq<UeState>)
    requires E.HasFirstRow(t) && u.harq == FreshHarq() && |mid| == 1
    requires Preprocessed(t, 6, EmptyMap(), [u], [E.Asking(5).report], order, vrb, mid)
    ensures mid[0].harq == FreshHarq() && mid[0].alloc.available == 4
  {
    var served := ChosenAll(Permuted(order, OpenedAll(t, 6, [u], [E.Asking(5).report])));
    assert order == [0];
    E.AskingDemands(t, u, 5);
    SoleGrant(served);
    assert Permuted(order, mid)[0] == Updated(served, GrantedCell(6, EmptyMap(), served).ues)[0];
  }

  /** A round in which the only UE sends new data on process 0. */
  lemma {:induction false} SoleUeSends(t: TbsTable, u: UeState)
    returns (x: Inside, us': seq<UeState>, sents: seq<Option<Sent>>)
    requires E.HasFirstRow(t) && u.harq == FreshHarq() && TxFits(6, u.tx)
    ensures |us'| == |sents| == 1 && sents[0].Some? && sents[0].value.dci.harqPid == 0
    ensures InputsOk([u], [E.Asking(5)]) && RecordsFit(6, [u]) && RoundStep(t, 6, [u], [E.Asking(5)], x, us', sents)
  {
    var inps := [E.Asking(5)];
    x, us', sents := E.EveryInputHasARound(t, 6, [u], inps, 0);
    assert Reports(inps) == [E.Asking(5).report];
    SoleHandOver(t, u, x.order, x.vrb, x.mid);
    SendsOnFirst(t, x.mid[0], x.mcs[0], us'[0], sents[0], x.mcs[1]);
  }

  lemma {:induction false} SendsOnFirst(t: TbsTable, u: UeState, mcs0: nat, u': UeState, sent: Option<Sent>, mcs: nat)
    requires StateFits(6, u) && mcs0 <= MAX_MCS && u.harq == FreshHarq() && u.alloc.available == 4
    requires SendStep(t, 6, u, E.Asking(5), mcs0, u', sent, mcs)
    ensures sent.Some? && sent.value.dci.harqPid == 0
  {
    assert NextHarq(FreshHarq(), 0) == 0;
  }

  /** A run that ends with the only UE sending on process 0, after a run in which it has fresh HARQ state. */
  lemma {:induction false} SendInRun(t: TbsTable, r: seq<Stage>) returns (r': seq<Stage>, s: Sent)
    requires E.HasFirstRow(t) && IsRun(t, 6, r)
    requires |Last(r).us| == 1 && Last(r).us[0].harq == FreshHarq() && Last(r).gone == []
    ensures IsRun(t, 6, r') && |Last(r').us| == |Last(r').logs| == |Last(r).logs| == 1 && Last(r').gone == []
    ensures Last(r').logs[0] == Last(r).logs[0] + [Transmission(s)] && s.dci.harqPid == 0
  {
    EveryRunIsLegal(t, 6, r);
    var u := Last(r).us[0];
    var x, us', sents := SoleUeSends(t, u);
    assert Last(r).us == [u];
    s := sents[0].value;
    var s' := Sys(us', [Last(r).logs[0] + [Transmission(s)]], []);
    ExtendRun(t, 6, r, Round([E.Asking(5)], x, sents), s');
    r' := r + [Stage(Round([E.Asking(5)], x, sents), s')];
  }

  lemma {:induction false} LeaveAndRejoin(t: TbsTable, r: seq<Stage>) returns (r': seq<Stage>)
    requires IsRun(t, 6, r) && |Last(r).us| == |Last(r).logs| == 1 && Last(r).gone == []
    ensures IsRun(t, 6, r') && |Last(r').us| == |Last(r').logs| == 1 && Last(r').gone == []
    ensures Last(r').us[0].harq == FreshHarq() && Last(r').logs[0] == Last(r).logs[0] + [Rejoined]
  {
    var g := Gone(Last(r).us[0].alloc, Last(r).us[0].tx, Last(r).logs[0]);
    var away, back := Sys([], [], [g]), Sys([UeState(g.alloc, g.tx, FreshHarq())], [g.log + [Rejoined]], []);
    LeaveStep(t, Last(r), g);
    ExtendRun(t, 6, r, Leave(0), away);
    RejoinStep(t, g);
    var left := r + [Stage(Leave(0), away)];
    ExtendRun(t, 6, left, Rejoin(0), back);
    r' := left + [Stage(Rejoin(0), back)];
  }

  lemma {:induction false} LeaveStep(t: TbsTable, s: Sys, g: Gone)
    requires |s.us| == |s.logs| == 1 && s.gone == [] && g == Gone(s.us[0].alloc, s.us[0].tx, s.logs[0])
    ensures Step(t, 6, s, Leave(0), Sys([], [], [g]))
  {
  }

  lemma {:induction false} RejoinStep(t: TbsTable, g: Gone)
    ensures Step(t, 6, Sys([], [], [g]), Rejoin(0),
                 Sys([UeState(g.alloc, g.tx, FreshHarq())], [g.log + [Rejoined]], []))
  {
  }

  lemma {:induction false} ReuseInLog(log: seq<HarqEvent>, first: Sent, again: Sent)
    requires log == [Transmission(first), Rejoined, Transmission(again)]
    requires first.dci.harqPid == again.dci.harqPid == 0
    ensures !AlwaysWaitsForFeedback(log)
  {
    assert log[0].Transmission? && log[1].Rejoined? && log[2].Transmission?;
    assert !FedBetween(log, log[2].sent.dci.harqPid, 0, 2);
  }

  lemma {:induction false} JoinedRun(t: TbsTable) returns (r: seq<Stage>)
    ensures IsRun(t, 6, r) && Last(r) == Sys([FreshUe()], [[]], [])
  {
    var s := Sys([FreshUe()], [[]], []);
    assert [] + [FreshUe()] == [FreshUe()];
    ExtendRun(t, 6, [], Join, s);
    r := [] + [Stage(Join, s)];
  }

  /** A UE joins and sends, leaves and rejoins, and sends again on the same process: there was no feedback. */
  lemma {:induction false} RejoinReusesWithoutFeedback(t: TbsTable) returns (r: seq<Stage>)
    requires E.HasFirstRow(t)
    ensures IsRun(t, 6, r) && |Last(r).logs| == 1
    ensures LegalLog(Last(r).logs[0]) && !AlwaysWaitsForFeedback(Last(r).logs[0])
  {
    var joined := JoinedRun(t);
    var sent, first := SendInRun(t, joined);
    var back := LeaveAndRejoin(t, sent);
    var again;
    r, again := SendInRun(t, back);
    ReuseInRun(t, r, first, again);
  }

  lemma {:induction false} ReuseInRun(t: TbsTable, r: seq<Stage>, first: Sent, again: Sent)
    requires IsRun(t, 6, r) && |Last(r).logs| == 1
    requires Last(r).logs[0] == [] + [Transmission(first)] + [Rejoined] + [Transmission(again)]
    requires first.dci.harqPid == again.dci.harqPid == 0
    ensures LegalLog(Last(r).logs[0]) && !AlwaysWaitsForFeedback(Last(r).logs[0])
  {
    ReuseInLog(Last(r).logs[0], first, again);
    EveryRunIsLegal(t, 6, r);
  }

  // ---------- a late negative acknowledgement ----------

  /** Nothing is known or requested of the UE. */
  function Idle(): UeInput {
    UeInput(UeReport([], None, None), true, None)
  }

  lemma {:induction false} IdleClearsRecord(t: TbsTable, u: UeState, mid: UeState, mcs0: nat, u': UeState,
                                            sent: Option<Sent>, mcs: nat)
    requires u.harq == FreshHarq() && HandedOver(6, u, mid) && mcs0 <= MAX_MCS
    requires SendStep(t, 6, mid, Idle(), mcs0, u', sent, mcs)
    ensures sent.None? && u'.harq == FreshHarq() && u'.tx.nbScheduled[0] == 0
  {
    assert NextHarq(FreshHarq(), 0) == 0;
  }

  /** A round in which there is nothing to send to the only UE: the record of its first process is cleared. */
  lemma {:induction false} IdleRoundInRun(t: TbsTable, r: seq<Stage>) returns (r': seq<Stage>)
    requires IsRun(t, 6, r) && |Last(r).us| == |Last(r).logs| == 1
    requires Last(r).us[0].harq == FreshHarq() && Last(r).gone == []
    ensures IsRun(t, 6, r') && |Last(r').us| == |Last(r').logs| == 1 && Last(r').gone == []
    ensures Last(r').us[0].harq == FreshHarq() && Last(r').us[0].tx.nbScheduled[0] == 0
  {
    EveryRunIsLegal(t, 6, r);
    var u, inps := Last(r).us[0], [Idle()];
    assert Last(r).us == [u];
    var x, us', sents := E.EveryInputHasARound(t, 6, [u], inps, 0);
    HandOver(t, 6, EmptyMap(), [u], Reports(inps), x.order, x.vrb, x.mid);
    IdleClearsRecord(t, u, x.mid[0], x.mcs[0], us'[0], sents[0], x.mcs[1]);
    var s' := Sys(us', [Last(r).logs[0] + []], []);
    ExtendRun(t, 6, r, Round(inps, x, sents), s');
    r' := r + [Stage(Round(inps, x, sents), s')];
  }

  lemma {:induction false} NackInRun(t: TbsTable, r: seq<Stage>) returns (r': seq<Stage>)
    requires IsRun(t, 6, r) && |Last(r).us| == |Last(r).logs| == 1 && Last(r).gone == []
    requires Last(r).us[0].harq == FreshHarq() && Last(r).us[0].tx.nbScheduled[0] == 0
    ensures IsRun(t, 6, r') && |Last(r').us| == |Last(r').logs| == 1 && R.Stuck(Last(r').us[0], 0)
  {
    var u, log := Last(r).us[0], Last(r).logs[0];
    var s' := Sys([u.(harq := Fed(u.harq, 0, [1]))], [log + [Feedback(0, 1)]], []);
    ExtendRun(t, 6, r, HarqFeedback(0, 0, [1]), s');
    r' := r + [Stage(HarqFeedback(0, 0, [1]), s')];
  }

  /**
   * A UE joins and sends, leaves and rejoins, and has nothing to do for a round; then the negative acknowledgement of
   * its transmission arrives. From then on the UE is stuck.
   */
  lemma {:induction false} LateNackSilences(t: TbsTable) returns (r: seq<Stage>)
    requires E.HasFirstRow(t)
    ensures IsRun(t, 6, r) && |Last(r).us| == |Last(r).logs| == 1 && R.Stuck(Last(r).us[0], 0)
  {
    var joined := JoinedRun(t);
    var sent, first := SendInRun(t, joined);
    var back := LeaveAndRejoin(t, sent);
    var idle := IdleRoundInRun(t, back);
    r := NackInRun(t, idle);
  }
}
