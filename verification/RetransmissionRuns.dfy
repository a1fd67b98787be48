/** Retransmissions over whole runs: when they go out, and which UEs fall silent. */
module RetransmissionRuns {
  import opened Options
  import opened Primitives
  import opened Sequences
  import opened UeScheduling
  import opened Preprocessor
  import opened PreprocessorRun
  import opened Policy
  import opened PolicyRun
  import opened HarqRuns
  import opened Retransmissions

  // ---------- records are made of whole groups at 100 blocks ----------

  predicate WholeGroups(bw: Bandwidth, tx: Tx) {
    bw == 100 ==> forall p | 0 <= p < MAX_NUM_HARQ :: tx.nbScheduled[p] % 4 == 0
  }

  ghost predicate AllWhole(bw: Bandwidth, s: Sys) {
    && (forall i | 0 <= i < |s.us| :: WholeGroups(bw, s.us[i].tx))
    && forall k | 0 <= k < |s.gone| :: WholeGroups(bw, s.gone[k].tx)
  }

  lemma {:induction false} GridSearchWhole(t: TbsTable, mcs: nat, limit: nat, bytes: nat, nb: nat)
    requires limit <= 110 && nb <= 110 && limit % 4 == 0 && nb % 4 == 0
    ensures GridSearch(t, mcs, 4, limit, bytes, nb) % 4 == 0
    decreases limit + 4 - nb
  {
    if TbsDl(t, mcs, nb) >= bytes || nb + 4 > limit {
    } else {
      GridSearchWhole(t, mcs, limit, bytes, nb + 4);
    }
  }

  lemma {:induction false} GrantIsWholeGroups(bw: Bandwidth, m: RbgMap)
    requires bw == 100
    ensures Rbs(bw, m) % 4 == 0
  {
    SizeOfFullGroups(bw, m, NbRbg(bw));
  }

  lemma {:induction false} NewDataIsWhole(t: TbsTable, bw: Bandwidth, mid: UeState, p: nat, m: nat, need: nat,
                                          u': UeState, s: Sent, mcs: nat)
    requires bw == 100 && StateFits(bw, mid) && p < MAX_NUM_HARQ && m <= MAX_MCS && mid.alloc.available % 4 == 0
    requires WholeGroups(bw, mid.tx) && NewDataStep(t, bw, mid, p, m, need, u', s, mcs)
    ensures WholeGroups(bw, u'.tx)
  {
    GridSearchWhole(t, m, mid.alloc.available, need, StartRbs(bw, m));
  }

  lemma {:induction false} SendKeepsWhole(t: TbsTable, bw: Bandwidth, u: UeState, mid: UeState, inp: UeInput, mcs0: nat,
                                          u': UeState, sent: Option<Sent>, mcs: nat)
    requires WholeGroups(bw, u.tx) && HandedOver(bw, u, mid) && ReportOk(inp.report) && mcs0 <= MAX_MCS
    requires SendStep(t, bw, mid, inp, mcs0, u', sent, mcs)
    ensures WholeGroups(bw, u'.tx)
  {
    if bw == 100 && sent.Some? && mid.harq.stats[NextHarq(mid.harq, 0)] == 0 {
      GrantIsWholeGroups(bw, mid.alloc.rbgs);
      NewDataIsWhole(t, bw, mid, NextHarq(mid.harq, 0), InputMcs(inp, mcs0), inp.payload.value, u', sent.value, mcs);
    }
  }

  lemma {:induction false} RoundKeepsWhole(t: TbsTable, bw: Bandwidth, us: seq<UeState>, inps: seq<UeInput>, x: Inside,
                                           us': seq<UeState>, sents: seq<Option<Sent>>, i: nat)
    requires InputsOk(us, inps) && RecordsFit(bw, us) && RoundStep(t, bw, us, inps, x, us', sents)
    requires i < |us| && WholeGroups(bw, us[i].tx)
    ensures WholeGroups(bw, us'[i].tx)
  {
    HandOver(t, bw, EmptyMap(), us, Reports(inps), x.order, x.vrb, x.mid);
    SendKeepsWhole(t, bw, us[i], x.mid[i], inps[i], x.mcs[i], us'[i], sents[i], x.mcs[i + 1]);
  }

  lemma {:induction false} StepKeepsWhole(t: TbsTable, bw: Bandwidth, s: Sys, e: Event, s': Sys)
    requires Step(t, bw, s, e, s') && AllWhole(bw, s)
    ensures AllWhole(bw, s')
  {
    match e {
      case Join =>
      case Leave(i) =>
        LeaveKeepsWhole(bw, s, i, s');
      case Rejoin(k) =>
        RejoinKeepsWhole(bw, s, k, s');
      case HarqFeedback(i, pid, statuses) =>
      case Round(inps, x, sents) =>
        forall i | 0 <= i < |s.us|
          ensures WholeGroups(bw, s'.us[i].tx)
        {
          RoundKeepsWhole(t, bw, s.us, inps, x, s'.us, sents, i);
        }
    }
  }

  lemma {:induction false} LeaveKeepsWhole(bw: Bandwidth, s: Sys, i: nat, s': Sys)
    requires i < |s.us| == |s.logs| && AllWhole(bw, s) && s'.us == Without(s.us, i)
    requires s'.gone == s.gone + [Gone(s.us[i].alloc, s.us[i].tx, s.logs[i])]
    ensures AllWhole(bw, s')
  {
  }

  lemma {:induction false} RejoinKeepsWhole(bw: Bandwidth, s: Sys, k: nat, s': Sys)
    requires k < |s.gone| && AllWhole(bw, s) && s'.gone == Without(s.gone, k)
    requires s'.us == s.us + [UeState(s.gone[k].alloc, s.gone[k].tx, FreshHarq())]
    ensures AllWhole(bw, s')
  {
  }

  lemma {:induction false} EveryRunKeepsWhole(t: TbsTable, bw: Bandwidth, r: seq<Stage>)
    requires IsRun(t, bw, r)
    ensures AllWhole(bw, Last(r))
  {
    if r == [] {
    } else {
      EveryRunKeepsWhole(t, bw, r[..|r| - 1]);
      StepKeepsWhole(t, bw, Last(r[..|r| - 1]), r[|r| - 1].event, r[|r| - 1].after);
    }
  }

  /**
   * After any run, the pending retransmission of the foremost UE goes out in the next round exactly if control
   * information fits and its blocks are still recorded.
   */
  lemma {:induction false} ForemostProgressesExactlyWhen(t: TbsTable, bw: Bandwidth, r: seq<Stage>, e: Event, s': Sys,
                                                         i: nat)
    requires IsRun(t, bw, r) && Step(t, bw, Last(r), e, s') && e.Round?
    requires IsForemost(t, bw, Last(r).us, Reports(e.inps), i) && Pending(Last(r).us[i])
    ensures |e.sents| == |Last(r).us| == |e.inps|
    ensures e.sents[i].Some? <==> e.inps[i].cceFeasible && Recorded(Last(r).us[i]) > 0
  {
    EveryRunKeepsWhole(t, bw, r);
    ForemostIsSentExactlyWhen(t, bw, Last(r).us, e.inps, e.x, s'.us, e.sents, i);
    assert WholeGroups(bw, Last(r).us[i].tx);
  }

  // ---------- silence ----------

  /** The process to use was not acknowledged, and its record is cleared. */
  predicate Stuck(u: UeState, p: nat) {
    NextHarq(u.harq, 0) == p && p < MAX_NUM_HARQ && u.harq.stats[p] > 0 && u.tx.nbScheduled[p] == 0
  }

  /** UE `i` leaves, or hears of process `p` or a lower one. */
  predicate Wakes(e: Event, i: nat, p: nat) {
    e == Leave(i) || (e.HarqFeedback? && e.i == i && e.pid <= p && e.statuses != [])
  }

  /** Where UE `i` is listed after the event, if it has not left. */
  function Place(e: Event, i: nat): nat {
    if e.Leave? && e.i < i then i - 1 else i
  }

  function Uses(log: seq<HarqEvent>): nat {
    if log == [] then 0
    else Uses(log[..|log| - 1]) + (if log[|log| - 1].Transmission? then 1 else 0)
  }

  lemma {:induction false} FeedbackIsNoUse(log: seq<HarqEvent>, pid: nat, status: nat)
    ensures Uses(log + [Feedback(pid, status)]) == Uses(log)
  {
    assert (log + [Feedback(pid, status)])[..|log|] == log;
  }

  /** The UE listed at `j` is stuck, and its processes have been used as often as in the log given. */
  ghost predicate IsStuckSince(s: Sys, j: nat, p: nat, log: seq<HarqEvent>) {
    j < |s.us| == |s.logs| && Stuck(s.us[j], p) && Uses(s.logs[j]) == Uses(log)
  }

  lemma {:induction false} StuckFed(s: Sys, k: nat, pid: nat, statuses: seq<nat>, s': Sys, i: nat, p: nat)
    requires i < |s.us| == |s.logs| && k < |s.us| && pid < MAX_NUM_HARQ && Stuck(s.us[i], p)
    requires k == i && statuses != [] ==> pid > p
    requires s'.us == s.us[k := s.us[k].(harq := Fed(s.us[k].harq, pid, statuses))]
    requires s'.logs == s.logs[k := s.logs[k] + (if statuses == [] then [] else [Feedback(pid, statuses[0])])]
    ensures IsStuckSince(s', i, p, s.logs[i])
  {
    if k == i && statuses != [] {
      FeedbackIsNoUse(s.logs[i], pid, statuses[0]);
    } else {
      assert s.logs[k] + [] == s.logs[k];
    }
  }

  lemma {:induction false} StuckInRound(t: TbsTable, bw: Bandwidth, s: Sys, inps: seq<UeInput>, x: Inside,
                                        sents: seq<Option<Sent>>, s': Sys, i: nat, p: nat)
    requires Step(t, bw, s, Round(inps, x, sents), s') && i < |s.us| && Stuck(s.us[i], p)
    ensures IsStuckSince(s', i, p, s.logs[i])
  {
    PendingIsSentIfGranted(t, bw, s.us, inps, x, s'.us, sents, i);
    assert s.logs[i] + [] == s.logs[i];
  }

  lemma {:induction false} StuckBesideLeaver(s: Sys, k: nat, s': Sys, i: nat, p: nat)
    requires i < |s.us| == |s.logs| && k < |s.us| && k != i && Stuck(s.us[i], p)
    requires s'.us == Without(s.us, k) && s'.logs == Without(s.logs, k)
    ensures IsStuckSince(s', if k < i then i - 1 else i, p, s.logs[i])
  {
  }

  /** A stuck UE stays stuck and is sent nothing in any step but one that wakes it. */
  lemma {:induction false} StuckStep(t: TbsTable, bw: Bandwidth, s: Sys, e: Event, s': Sys, i: nat, p: nat)
    requires Step(t, bw, s, e, s') && i < |s.us| && Stuck(s.us[i], p) && !Wakes(e, i, p)
    ensures IsStuckSince(s', Place(e, i), p, s.logs[i])
  {
    match e {
      case Join =>
      case Leave(k) => StuckBesideLeaver(s, k, s', i, p);
      case Rejoin(k) =>
      case HarqFeedback(k, pid, statuses) => StuckFed(s, k, pid, statuses, s', i, p);
      case Round(inps, x, sents) => StuckInRound(t, bw, s, inps, x, sents, s', i, p);
    }
  }

  /** Where the UE that was listed at `i` after `n` stages is listed at the end. */
  function PlaceAfter(r: seq<Stage>, n: nat, i: nat): nat
    requires n <= |r|
  {
    if |r| == n then i else Place(r[|r| - 1].event, PlaceAfter(r[..|r| - 1], n, i))
  }

  predicate NothingWakes(r: seq<Stage>, n: nat, i: nat, p: nat)
    requires n <= |r|
  {
    |r| == n || (NothingWakes(r[..|r| - 1], n, i, p)
                 && !Wakes(r[|r| - 1].event, PlaceAfter(r[..|r| - 1], n, i), p))
  }

  /**
   * Whatever the UE has to send and however empty the cell is, a stuck UE is sent nothing until there is feedback
   * for its process or a lower one.
   */
  lemma {:induction false} StuckUntilFeedback(t: TbsTable, bw: Bandwidth, r: seq<Stage>, n: nat, i: nat, p: nat)
    requires IsRun(t, bw, r) && n <= |r| && NothingWakes(r, n, i, p)
    requires i < |Last(r[..n]).us| == |Last(r[..n]).logs| && Stuck(Last(r[..n]).us[i], p)
    ensures IsStuckSince(Last(r), PlaceAfter(r, n, i), p, Last(r[..n]).logs[i])
  {
    if |r| == n {
      assert r[..n] == r;
    } else {
      var before, now := r[..|r| - 1], r[|r| - 1];
      assert before[..n] == r[..n];
      StuckUntilFeedback(t, bw, before, n, i, p);
      StuckStep(t, bw, Last(before), now.event, now.after, PlaceAfter(before, n, i), p);
    }
  }
}
