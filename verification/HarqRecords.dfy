/** What is remembered of each HARQ process: from round to round, and until a transmission is acknowledged. */
module HarqRecords {
  import opened Options
  import opened Primitives
  import opened UeScheduling
  import opened Preprocessor
  import opened PreprocessorRun
  import opened Policy
  import opened PolicyRun
  import opened HarqRuns
  import opened HarqReuse
  import opened Retransmissions
  import opened RetransmissionRuns

  /**
   * The preprocessor forgets the blocks of one process at most: the lowest free one, if it is acknowledged. MCS and
   * new-data indicators stay.
   */
  lemma {:induction false} HandOverKeepsRecords(t: TbsTable, bw: Bandwidth, vrb: RbgMap, us: seq<UeState>,
                                                reports: seq<UeReport>, order: seq<nat>, vrb': RbgMap,
                                                mid: seq<UeState>, i: nat, p: nat)
    requires |us| == |reports| && (forall i | 0 <= i < |reports| :: ReportOk(reports[i])) && RecordsFit(bw, us)
    requires Preprocessed(t, bw, vrb, us, reports, order, vrb', mid) && i < |us| && p < MAX_NUM_HARQ
    ensures mid[i].tx.mcs == us[i].tx.mcs && mid[i].tx.ndi == us[i].tx.ndi && mid[i].harq == us[i].harq
    ensures mid[i].tx.nbScheduled[p] ==
      if us[i].harq.active[p] && us[i].harq.stats[p] == 0 && forall q | 0 <= q < p :: !us[i].harq.active[q] then 0
      else us[i].tx.nbScheduled[p]
  {
    HandOver(t, bw, vrb, us, reports, order, vrb', mid);
    RecordsOfOne(bw, us[i], mid[i], p);
  }

  lemma {:induction false} RecordsOfOne(bw: Bandwidth, u: UeState, mid: UeState, p: nat)
    requires HandedOver(bw, u, mid) && p < MAX_NUM_HARQ
    ensures mid.tx.mcs == u.tx.mcs && mid.tx.ndi == u.tx.ndi && mid.harq == u.harq
    ensures mid.tx.nbScheduled[p] ==
      if u.harq.active[p] && u.harq.stats[p] == 0 && forall q | 0 <= q < p :: !u.harq.active[q] then 0
      else u.tx.nbScheduled[p]
  {
    var next := NextHarq(u.harq, 0);
  }

  // ---------- records over runs ----------

  /** A process in flight or not acknowledged has the blocks of its last transmission on record. */
  ghost predicate Remembered(u: UeState, log: seq<HarqEvent>) {
    forall p: nat | p < MAX_NUM_HARQ && (!u.harq.active[p] || u.harq.stats[p] > 0) :: LastOnRecord(u, log, p)
  }

  ghost predicate LastOnRecord(u: UeState, log: seq<HarqEvent>, p: nat)
    requires p < MAX_NUM_HARQ
  {
    var q := ProcOf(log, p);
    q.last.Some? && 0 < u.tx.nbScheduled[p] == q.last.value.nbRb
  }

  ghost predicate AllRemembered(s: Sys) {
    |s.us| == |s.logs| && forall i | 0 <= i < |s.us| :: Remembered(s.us[i], s.logs[i])
  }

  /** Feedback comes for a process in flight. */
  predicate IsDue(s: Sys, e: Event) {
    e.HarqFeedback? && e.i < |s.us| && e.pid < MAX_NUM_HARQ && e.statuses != [] ==> !s.us[e.i].harq.active[e.pid]
  }

  lemma {:induction false} FeedbackKeepsRemembered(u: UeState, log: seq<HarqEvent>, pid: nat, status: nat)
    requires Remembered(u, log) && pid < MAX_NUM_HARQ && !u.harq.active[pid]
    ensures Remembered(u.(harq := Fed(u.harq, pid, [status])), log + [Feedback(pid, status)])
  {
    forall p: nat | p < MAX_NUM_HARQ {
      ProcSnoc(log, Feedback(pid, status), p);
    }
  }

  lemma {:induction false} HandOverKeepsRemembered(bw: Bandwidth, u: UeState, mid: UeState, log: seq<HarqEvent>)
    requires Remembered(u, log) && HandedOver(bw, u, mid)
    ensures Remembered(mid, log)
  {
    forall p: nat | p < MAX_NUM_HARQ && (!mid.harq.active[p] || mid.harq.stats[p] > 0)
      ensures LastOnRecord(mid, log, p)
    {
      assert LastOnRecord(u, log, p);
    }
  }

  lemma {:induction false} NewDataIsRemembered(t: TbsTable, bw: Bandwidth, mid: UeState, log: seq<HarqEvent>, p: nat,
                                               m: nat, need: nat, u': UeState, s: Sent, mcs: nat)
    requires Remembered(mid, log) && StateFits(bw, mid) && p < MAX_NUM_HARQ && m <= MAX_MCS
    requires mid.alloc.available > 0 && NewDataStep(t, bw, mid, p, m, need, u', s, mcs)
    ensures Remembered(u', log + [Transmission(s)])
  {
    GridSearchPositive(t, m, MinRbUnit(bw), mid.alloc.available, need, StartRbs(bw, m));
    forall q: nat | q < MAX_NUM_HARQ && (!u'.harq.active[q] || u'.harq.stats[q] > 0)
      ensures LastOnRecord(u', log + [Transmission(s)], q)
    {
      ProcSnoc(log, Transmission(s), q);
      assert q != p ==> LastOnRecord(mid, log, q);
    }
  }

  lemma {:induction false} RetransmissionIsRemembered(t: TbsTable, bw: Bandwidth, mid: UeState, log: seq<HarqEvent>,
                                                      p: nat, u': UeState, sent: Option<Sent>)
    requires Remembered(mid, log) && StateFits(bw, mid) && p < MAX_NUM_HARQ && sent.Some?
    requires mid.harq.stats[p] > 0 && RetransmissionStep(t, bw, mid, p, u', sent)
    ensures Remembered(u', log + [Transmission(sent.value)])
  {
    forall q: nat | q < MAX_NUM_HARQ && (!u'.harq.active[q] || u'.harq.stats[q] > 0)
      ensures LastOnRecord(u', log + [Transmission(sent.value)], q)
    {
      ProcSnoc(log, Transmission(sent.value), q);
      assert LastOnRecord(mid, log, q);
    }
  }

  lemma {:induction false} SendKeepsRemembered(t: TbsTable, bw: Bandwidth, u: UeState, mid: UeState,
                                               log: seq<HarqEvent>, inp: UeInput, mcs0: nat, u': UeState,
                                               sent: Option<Sent>, mcs: nat)
    requires Remembered(u, log) && HandedOver(bw, u, mid) && ReportOk(inp.report) && mcs0 <= MAX_MCS
    requires SendStep(t, bw, mid, inp, mcs0, u', sent, mcs)
    ensures Remembered(u', log + (if sent.Some? then [Transmission(sent.value)] else []))
  {
    HandOverKeepsRemembered(bw, u, mid, log);
    if sent.None? {
      assert log + [] == log;
    } else {
      var p := NextHarq(mid.harq, 0);
      if mid.harq.stats[p] > 0 {
        RetransmissionIsRemembered(t, bw, mid, log, p, u', sent);
      } else {
        NewDataIsRemembered(t, bw, mid, log, p, InputMcs(inp, mcs0), inp.payload.value, u', sent.value, mcs);
      }
    }
  }

  lemma {:induction false} RoundKeepsRemembered(t: TbsTable, bw: Bandwidth, s: Sys, inps: seq<UeInput>, x: Inside,
                                                sents: seq<Option<Sent>>, s': Sys)
    requires Step(t, bw, s, Round(inps, x, sents), s') && AllRemembered(s)
    ensures AllRemembered(s')
  {
    HandOver(t, bw, EmptyMap(), s.us, Reports(inps), x.order, x.vrb, x.mid);
    forall i | 0 <= i < |s.us|
      ensures Remembered(s'.us[i], s'.logs[i])
    {
      SendKeepsRemembered(t, bw, s.us[i], x.mid[i], s.logs[i], inps[i], x.mcs[i], s'.us[i], sents[i], x.mcs[i + 1]);
    }
  }

  lemma {:induction false} StepKeepsRemembered(t: TbsTable, bw: Bandwidth, s: Sys, e: Event, s': Sys)
    requires Step(t, bw, s, e, s') && AllRemembered(s) && IsDue(s, e)
    ensures AllRemembered(s')
  {
    match e {
      case Join =>
      case Leave(i) =>
      case Rejoin(k) =>
      case HarqFeedback(i, pid, statuses) =>
        if statuses == [] {
          assert s.logs[i] + [] == s.logs[i];
        } else {
          FeedbackKeepsRemembered(s.us[i], s.logs[i], pid, statuses[0]);
        }
      case Round(inps, x, sents) =>
        RoundKeepsRemembered(t, bw, s, inps, x, sents, s');
    }
  }

  /** All feedback of the run comes for processes in flight. */
  ghost predicate FeedbackIsDue(r: seq<Stage>) {
    r != [] ==> FeedbackIsDue(r[..|r| - 1]) && IsDue(Last(r[..|r| - 1]), r[|r| - 1].event)
  }

  lemma {:induction false} EveryRunRemembers(t: TbsTable, bw: Bandwidth, r: seq<Stage>)
    requires IsRun(t, bw, r) && FeedbackIsDue(r)
    ensures AllRemembered(Last(r))
  {
    if r == [] {
    } else {
      var before := r[..|r| - 1];
      EveryRunRemembers(t, bw, before);
      StepKeepsRemembered(t, bw, Last(before), r[|r| - 1].event, r[|r| - 1].after);
    }
  }

  /**
   * After any run in which feedback comes only for processes in flight, what is pending has its blocks on record, and
   * they are those of the last transmission on its process: nobody is stuck.
   */
  lemma {:induction false} PendingIsOnRecord(t: TbsTable, bw: Bandwidth, r: seq<Stage>, i: nat)
    requires IsRun(t, bw, r) && FeedbackIsDue(r) && i < |Last(r).us| && Pending(Last(r).us[i])
    ensures i < |Last(r).logs|
    ensures var last := ProcOf(Last(r).logs[i], NextHarq(Last(r).us[i].harq, 0)).last;
      last.Some? && 0 < Recorded(Last(r).us[i]) == last.value.nbRb
  {
    EveryRunRemembers(t, bw, r);
    var p := NextHarq(Last(r).us[i].harq, 0);
    assert LastOnRecord(Last(r).us[i], Last(r).logs[i], p);
  }

  // ---------- in terms of what happened ----------

  /** Feedback comes for a process that is outstanding. */
  ghost predicate IsAnswer(s: Sys, e: Event) {
    e.HarqFeedback? && e.i < |s.logs| && e.statuses != [] ==> Outstanding(s.logs[e.i], e.pid)
  }

  ghost predicate FeedbackAnswers(r: seq<Stage>) {
    r != [] ==> FeedbackAnswers(r[..|r| - 1]) && IsAnswer(Last(r[..|r| - 1]), r[|r| - 1].event)
  }

  lemma {:induction false} AnswersAreDue(t: TbsTable, bw: Bandwidth, s: Sys, e: Event)
    requires SysInv(t, bw, s) && AllAnswered(s) && IsAnswer(s, e)
    ensures IsDue(s, e)
  {
    if e.HarqFeedback? && e.i < |s.us| && e.pid < MAX_NUM_HARQ && e.statuses != [] {
      assert Answered(s.logs[e.i]);
      assert TracksProc(t, s.us[e.i], e.pid, ProcOf(s.logs[e.i], e.pid));
    }
  }

  /** If no UE rejoins with a process outstanding, it is enough that feedback answers transmissions. */
  lemma {:induction false} AnsweringRunsRemember(t: TbsTable, bw: Bandwidth, r: seq<Stage>)
    requires IsRun(t, bw, r) && RejoinsAnswered(r) && FeedbackAnswers(r)
    ensures FeedbackIsDue(r) && AllRemembered(Last(r))
  {
    if r == [] {
    } else {
      var before := r[..|r| - 1];
      RejoinsAnsweredInit(r);
      AnsweringRunsRemember(t, bw, before);
      AnsweredRejoinsKeepRule(t, bw, before);
      EveryRunIsLegal(t, bw, before);
      AnswersAreDue(t, bw, Last(before), r[|r| - 1].event);
      StepKeepsRemembered(t, bw, Last(before), r[|r| - 1].event, r[|r| - 1].after);
    }
  }

  /** Then the foremost UE's retransmission goes out in the next round whenever its control information fits. */
  lemma {:induction false} ForemostAlwaysProgresses(t: TbsTable, bw: Bandwidth, r: seq<Stage>, e: Event, s': Sys,
                                                    i: nat)
    requires IsRun(t, bw, r) && RejoinsAnswered(r) && FeedbackAnswers(r)
    requires Step(t, bw, Last(r), e, s') && e.Round?
    requires IsForemost(t, bw, Last(r).us, Reports(e.inps), i) && Pending(Last(r).us[i])
    ensures |e.sents| == |Last(r).us| == |e.inps|
    ensures e.sents[i].Some? <==> e.inps[i].cceFeasible
  {
    AnsweringRunsRemember(t, bw, r);
    PendingIsOnRecord(t, bw, r, i);
    ForemostProgressesExactlyWhen(t, bw, r, e, s', i);
  }
}
