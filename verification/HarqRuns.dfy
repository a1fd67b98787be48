/** HARQ processes and new-data indicators over whole runs of scheduling rounds and feedback. */
module HarqRuns {
  import opened Options
  import opened Primitives
  import opened Sequences
  import opened UeScheduling
  import opened Preprocessor
  import opened PreprocessorRun
  import opened Policy
  import opened PolicyRun

  // ---------- the reference: what a HARQ process may do, section 5.3.2 of TS 36.321 ----------

  /** A UE that rejoins is taken to have all its processes idle and acknowledged. */
  datatype HarqEvent = Feedback(pid: nat, status: nat) | Transmission(sent: Sent) | Rejoined

  /** What the events so far say of one process; status 0 is a positive acknowledgement. */
  datatype Proc = Proc(inFlight: bool, status: nat, newCount: nat, last: Option<Sent>)

  function ProcOf(log: seq<HarqEvent>, p: nat): Proc {
    if log == [] then Proc(false, 0, 0, None)
    else
      var q := ProcOf(log[..|log| - 1], p);
      match log[|log| - 1]
      case Feedback(pid, status) => if pid == p then q.(inFlight := false, status := status) else q
      case Transmission(s) =>
        if s.dci.harqPid != p then q
        else if s.isNew then Proc(true, q.status, q.newCount + 1, Some(s))
        else q.(inFlight := true)
      case Rejoined => q.(inFlight := false, status := 0)
  }

  /** A process is used only while idle: for new data after an acknowledgement, with the indicator toggled;
      else for the same transport block on as many resource blocks, with the indicator kept. */
  ghost predicate Legal(q: Proc, s: Sent) {
    && !q.inFlight
    && (s.isNew <==> q.status == 0)
    && s.dci.ndi == (q.newCount + (if s.isNew then 1 else 0)) % 2
    && s.dci.rv == q.status % 4
    && (!s.isNew ==>
          && q.last.Some?
          && s.nbRb == q.last.value.nbRb && s.dci.mcs == q.last.value.dci.mcs
          && s.dci.tbsSize == q.last.value.dci.tbsSize && s.dci.ndi == q.last.value.dci.ndi)
  }

  ghost predicate LegalLog(log: seq<HarqEvent>) {
    forall k | 0 <= k < |log| && log[k].Transmission? ::
      Legal(ProcOf(log[..k], log[k].sent.dci.harqPid), log[k].sent)
  }

  // ---------- runs ----------

  /** What the scheduler keeps of a UE that has left: its counters, its records, and what has happened. */
  datatype Gone = Gone(alloc: Alloc, tx: Tx, log: seq<HarqEvent>)

  datatype Sys = Sys(us: seq<UeState>, logs: seq<seq<HarqEvent>>, gone: seq<Gone>)

  datatype Event =
    | Join
    | Leave(i: nat)
    | Rejoin(k: nat)
    | HarqFeedback(i: nat, pid: nat, statuses: seq<nat>)
    | Round(inps: seq<UeInput>, x: Inside, sents: seq<Option<Sent>>)

  function FreshUe(): UeState {
    UeState(Alloc(0, 0, 0, 0, EmptyMap(), true), FreshTx(), FreshHarq())
  }

  ghost predicate Step(t: TbsTable, bw: Bandwidth, s: Sys, e: Event, s': Sys) {
    |s.logs| == |s.us| &&
    match e
    case Join => s' == Sys(s.us + [FreshUe()], s.logs + [[]], s.gone)
    case Leave(i) =>
      && i < |s.us|
      && s' == Sys(Without(s.us, i), Without(s.logs, i), s.gone + [Gone(s.us[i].alloc, s.us[i].tx, s.logs[i])])
    case Rejoin(k) =>
      && k < |s.gone|
      && s' == Sys(s.us + [UeState(s.gone[k].alloc, s.gone[k].tx, FreshHarq())],
                   s.logs + [s.gone[k].log + [Rejoined]], Without(s.gone, k))
    case HarqFeedback(i, pid, statuses) =>
      && i < |s.us| && pid < MAX_NUM_HARQ
      && s' == Sys(s.us[i := s.us[i].(harq := Fed(s.us[i].harq, pid, statuses))],
                   s.logs[i := s.logs[i] + (if statuses == [] then [] else [Feedback(pid, statuses[0])])], s.gone)
    case Round(inps, x, sents) =>
      && InputsOk(s.us, inps) && RecordsFit(bw, s.us)
      && RoundStep(t, bw, s.us, inps, x, s'.us, sents)
      && |s'.logs| == |s.logs| && s'.gone == s.gone
      && forall i | 0 <= i < |s.us| ::
        s'.logs[i] == s.logs[i] + (if sents[i].Some? then [Transmission(sents[i].value)] else [])
  }

  datatype Stage = Stage(event: Event, after: Sys)

  function Last(r: seq<Stage>): Sys {
    if r == [] then Sys([], [], []) else r[|r| - 1].after
  }

  ghost predicate IsRun(t: TbsTable, bw: Bandwidth, r: seq<Stage>) {
    r != [] ==>
      && IsRun(t, bw, r[..|r| - 1])
      && Step(t, bw, Last(r[..|r| - 1]), r[|r| - 1].event, r[|r| - 1].after)
  }

  lemma {:induction false} ExtendRun(t: TbsTable, bw: Bandwidth, r: seq<Stage>, e: Event, s': Sys)
    requires IsRun(t, bw, r) && Step(t, bw, Last(r), e, s')
    ensures IsRun(t, bw, r + [Stage(e, s')]) && Last(r + [Stage(e, s')]) == s'
  {
    assert (r + [Stage(e, s')])[..|r|] == r;
  }

  // ---------- the invariant ----------

  /** The records of a UE agree with the events on process `p`. */
  ghost predicate TracksTx(t: TbsTable, tx: Tx, p: nat, q: Proc)
    requires p < MAX_NUM_HARQ
  {
    && tx.ndi[p] == q.newCount % 2
    && match q.last
       case None => tx.nbScheduled[p] == 0
       case Some(s) =>
         && s.nbRb <= 110 && s.dci.mcs == tx.mcs[p] && s.dci.tbsSize == TbsDl(t, s.dci.mcs, s.nbRb)
         && s.dci.ndi == q.newCount % 2
         && (tx.nbScheduled[p] == 0 || tx.nbScheduled[p] == s.nbRb)
  }

  /** The UE's tables agree with the events on process `p`. */
  ghost predicate TracksProc(t: TbsTable, u: UeState, p: nat, q: Proc)
    requires p < MAX_NUM_HARQ
  {
    u.harq.active[p] == !q.inFlight && u.harq.stats[p] == q.status && TracksTx(t, u.tx, p, q)
  }

  ghost predicate Tracks(t: TbsTable, bw: Bandwidth, u: UeState, log: seq<HarqEvent>) {
    && TxFits(bw, u.tx) && LegalLog(log)
    && forall p: nat | p < MAX_NUM_HARQ :: TracksProc(t, u, p, ProcOf(log, p))
  }

  /** What is kept of a UE that has left agrees with the events. */
  ghost predicate Remembers(t: TbsTable, bw: Bandwidth, g: Gone) {
    && TxFits(bw, g.tx) && LegalLog(g.log)
    && forall p: nat | p < MAX_NUM_HARQ :: TracksTx(t, g.tx, p, ProcOf(g.log, p))
  }

  lemma {:induction false} LegalSnoc(log: seq<HarqEvent>, e: HarqEvent)
    requires LegalLog(log)
    requires e.Transmission? ==> Legal(ProcOf(log, e.sent.dci.harqPid), e.sent)
    ensures LegalLog(log + [e])
  {
    var l := log + [e];
    assert l[..|log|] == log;
    forall k | 0 <= k < |log|
      ensures l[..k] == log[..k] && l[k] == log[k]
    {
    }
  }

  lemma {:induction false} ProcSnoc(log: seq<HarqEvent>, e: HarqEvent, p: nat)
    ensures
      var q := ProcOf(log, p);
      ProcOf(log + [e], p) ==
      match e
      case Feedback(pid, status) => if pid == p then q.(inFlight := false, status := status) else q
      case Transmission(s) =>
        if s.dci.harqPid != p then q
        else if s.isNew then Proc(true, q.status, q.newCount + 1, Some(s))
        else q.(inFlight := true)
      case Rejoined => q.(inFlight := false, status := 0)
  {
    assert (log + [e])[..|log|] == log;
  }

  lemma {:induction false} FeedbackKeepsTracks(t: TbsTable, bw: Bandwidth, u: UeState, log: seq<HarqEvent>, pid: nat,
                                               status: nat)
    requires Tracks(t, bw, u, log) && pid < MAX_NUM_HARQ
    ensures Tracks(t, bw, u.(harq := Fed(u.harq, pid, [status])), log + [Feedback(pid, status)])
  {
    LegalSnoc(log, Feedback(pid, status));
    forall p: nat | p < MAX_NUM_HARQ {
      ProcSnoc(log, Feedback(pid, status), p);
    }
  }

  /** The hand-over may only forget how many blocks an acknowledged transmission had. */
  lemma {:induction false} HandOverKeepsTracks(t: TbsTable, bw: Bandwidth, u: UeState, mid: UeState,
                                               log: seq<HarqEvent>)
    requires Tracks(t, bw, u, log) && HandedOver(bw, u, mid)
    ensures Tracks(t, bw, mid, log)
  {
    forall p: nat | p < MAX_NUM_HARQ
      ensures TracksProc(t, mid, p, ProcOf(log, p))
    {
      assert TracksProc(t, u, p, ProcOf(log, p));
    }
  }

  /** A process after one more transmission on it. */
  function Used(q: Proc, s: Sent): Proc {
    if s.isNew then Proc(true, q.status, q.newCount + 1, Some(s)) else q.(inFlight := true)
  }

  /** New data on an acknowledged process. */
  lemma {:induction false} NewDataOnProc(t: TbsTable, bw: Bandwidth, u: UeState, p: nat, m: nat, need: nat, u': UeState,
                                         s: Sent, mcs: nat, q: Proc)
    requires StateFits(bw, u) && p < MAX_NUM_HARQ && m <= MAX_MCS
    requires TracksProc(t, u, p, q) && u.harq.active[p] && u.harq.stats[p] == 0
    requires NewDataStep(t, bw, u, p, m, need, u', s, mcs)
    ensures s.dci.harqPid == p && s.isNew && Legal(q, s) && TracksProc(t, u', p, Used(q, s))
  {
    GridSearchBound(t, m, MinRbUnit(bw), u.alloc.available, need, StartRbs(bw, m));
  }

  /** A retransmission on a process whose last transport block was not acknowledged. */
  lemma {:induction false} RetransmissionOnProc(t: TbsTable, bw: Bandwidth, u: UeState, mid: UeState, p: nat,
                                                u': UeState, sent: Option<Sent>, q: Proc)
    requires StateFits(bw, mid) && p < MAX_NUM_HARQ && sent.Some?
    requires TracksProc(t, mid, p, q) && mid.harq.active[p] && mid.harq.stats[p] > 0
    requires TracksProc(t, u, p, q) && 0 < mid.alloc.required == u.tx.nbScheduled[p]
    requires RetransmissionStep(t, bw, mid, p, u', sent)
    ensures sent.value.dci.harqPid == p && !sent.value.isNew && Legal(q, sent.value)
    ensures TracksProc(t, u', p, Used(q, sent.value))
  {
  }

  /** What a transmission in a round is: legal, and the state agrees with its process afterwards. */
  lemma {:induction false} SendOnProc(t: TbsTable, bw: Bandwidth, u: UeState, mid: UeState, log: seq<HarqEvent>,
                                      inp: UeInput, mcs0: nat, u': UeState, sent: Option<Sent>, mcs: nat)
    requires Tracks(t, bw, u, log) && HandedOver(bw, u, mid) && ReportOk(inp.report) && mcs0 <= MAX_MCS
    requires SendStep(t, bw, mid, inp, mcs0, u', sent, mcs) && sent.Some?
    ensures var p := sent.value.dci.harqPid;
      && p < MAX_NUM_HARQ && Legal(ProcOf(log, p), sent.value)
      && TracksProc(t, u', p, Used(ProcOf(log, p), sent.value))
  {
    var p := NextHarq(mid.harq, 0);
    var q := ProcOf(log, p);
    HandOverKeepsTracks(t, bw, u, mid, log);
    assert TracksProc(t, mid, p, q) && TracksProc(t, u, p, q);
    if mid.harq.stats[p] > 0 {
      RetransmissionOnProc(t, bw, u, mid, p, u', sent, q);
    } else {
      NewDataOnProc(t, bw, mid, p, InputMcs(inp, mcs0), inp.payload.value, u', sent.value, mcs, q);
    }
  }

  /** Process `p` has the same records in both states. */
  ghost predicate SameProc(u: UeState, u': UeState, p: nat)
    requires p < MAX_NUM_HARQ
  {
    && u'.harq.active[p] == u.harq.active[p] && u'.harq.stats[p] == u.harq.stats[p]
    && u'.tx.ndi[p] == u.tx.ndi[p] && u'.tx.mcs[p] == u.tx.mcs[p] && u'.tx.nbScheduled[p] == u.tx.nbScheduled[p]
  }

  lemma {:induction false} SendKeepsOthers(t: TbsTable, bw: Bandwidth, u: UeState, inp: UeInput, mcs0: nat, u': UeState,
                                           sent: Option<Sent>, mcs: nat, p: nat)
    requires StateFits(bw, u) && ReportOk(inp.report) && mcs0 <= MAX_MCS
    requires SendStep(t, bw, u, inp, mcs0, u', sent, mcs) && sent.Some?
    requires p < MAX_NUM_HARQ && p != sent.value.dci.harqPid
    ensures SameProc(u, u', p)
  {
  }

  lemma {:induction false} SendKeepsProc(t: TbsTable, bw: Bandwidth, u: UeState, mid: UeState, log: seq<HarqEvent>,
                                         inp: UeInput, mcs0: nat, u': UeState, sent: Option<Sent>, mcs: nat, p: nat)
    requires Tracks(t, bw, u, log) && HandedOver(bw, u, mid) && ReportOk(inp.report) && mcs0 <= MAX_MCS
    requires SendStep(t, bw, mid, inp, mcs0, u', sent, mcs) && sent.Some? && p < MAX_NUM_HARQ
    ensures TracksProc(t, u', p, ProcOf(log + [Transmission(sent.value)], p))
  {
    SendOnProc(t, bw, u, mid, log, inp, mcs0, u', sent, mcs);
    ProcSnoc(log, Transmission(sent.value), p);
    if p != sent.value.dci.harqPid {
      HandOverKeepsTracks(t, bw, u, mid, log);
      SendKeepsOthers(t, bw, mid, inp, mcs0, u', sent, mcs, p);
      OtherProcIsTracked(t, mid, u', p, ProcOf(log, p));
    }
  }

  lemma {:induction false} OtherProcIsTracked(t: TbsTable, u: UeState, u': UeState, p: nat, q: Proc)
    requires p < MAX_NUM_HARQ && TracksProc(t, u, p, q) && SameProc(u, u', p)
    ensures TracksProc(t, u', p, q)
  {
  }

  lemma {:induction false} RoundKeepsTracks(t: TbsTable, bw: Bandwidth, u: UeState, mid: UeState, log: seq<HarqEvent>,
                                            inp: UeInput, mcs0: nat, u': UeState, sent: Option<Sent>, mcs: nat)
    requires Tracks(t, bw, u, log) && HandedOver(bw, u, mid) && ReportOk(inp.report) && mcs0 <= MAX_MCS
    requires SendStep(t, bw, mid, inp, mcs0, u', sent, mcs)
    ensures Tracks(t, bw, u', log + (if sent.Some? then [Transmission(sent.value)] else []))
  {
    HandOverKeepsTracks(t, bw, u, mid, log);
    if sent.Some? {
      SendOnProc(t, bw, u, mid, log, inp, mcs0, u', sent, mcs);
      LegalSnoc(log, Transmission(sent.value));
      forall p: nat | p < MAX_NUM_HARQ {
        SendKeepsProc(t, bw, u, mid, log, inp, mcs0, u', sent, mcs, p);
      }
      SendFits(t, bw, mid, inp, mcs0, u', sent, mcs);
    } else {
      assert log + [] == log;
    }
  }

  lemma {:induction false} SendFits(t: TbsTable, bw: Bandwidth, u: UeState, inp: UeInput, mcs0: nat, u': UeState,
                                    sent: Option<Sent>, mcs: nat)
    requires StateFits(bw, u) && ReportOk(inp.report) && mcs0 <= MAX_MCS
    requires SendStep(t, bw, u, inp, mcs0, u', sent, mcs)
    ensures TxFits(bw, u'.tx)
  {
    if u'.tx != u.tx {
      var m := InputMcs(inp, mcs0);
      GridSearchBound(t, m, MinRbUnit(bw), u.alloc.available, inp.payload.value, StartRbs(bw, m));
    }
  }

  ghost predicate SysInv(t: TbsTable, bw: Bandwidth, s: Sys) {
    && |s.logs| == |s.us| && (forall i | 0 <= i < |s.us| :: Tracks(t, bw, s.us[i], s.logs[i]))
    && forall k | 0 <= k < |s.gone| :: Remembers(t, bw, s.gone[k])
  }

  lemma {:induction false} FreshTracks(t: TbsTable, bw: Bandwidth)
    ensures Tracks(t, bw, FreshUe(), [])
  {
  }

  /** The records outlive the UE's absence, and its HARQ state starts afresh. */
  lemma {:induction false} RejoinTracks(t: TbsTable, bw: Bandwidth, g: Gone)
    requires Remembers(t, bw, g)
    ensures Tracks(t, bw, UeState(g.alloc, g.tx, FreshHarq()), g.log + [Rejoined])
  {
    LegalSnoc(g.log, Rejoined);
    forall p: nat | p < MAX_NUM_HARQ {
      ProcSnoc(g.log, Rejoined, p);
    }
  }

  lemma {:induction false} LeavingIsRemembered(t: TbsTable, bw: Bandwidth, u: UeState, log: seq<HarqEvent>)
    requires Tracks(t, bw, u, log)
    ensures Remembers(t, bw, Gone(u.alloc, u.tx, log))
  {
    forall p: nat | p < MAX_NUM_HARQ
      ensures TracksTx(t, u.tx, p, ProcOf(log, p))
    {
      assert TracksProc(t, u, p, ProcOf(log, p));
    }
  }

  lemma {:induction false} StepKeepsInvariant(t: TbsTable, bw: Bandwidth, s: Sys, e: Event, s': Sys)
    requires SysInv(t, bw, s) && Step(t, bw, s, e, s')
    ensures SysInv(t, bw, s')
  {
    match e {
      case Join =>
        FreshTracks(t, bw);
      case Leave(i) =>
        LeavingIsRemembered(t, bw, s.us[i], s.logs[i]);
      case Rejoin(k) =>
        RejoinTracks(t, bw, s.gone[k]);
      case HarqFeedback(i, pid, statuses) =>
        if statuses == [] {
          assert s.logs[i] + [] == s.logs[i];
        } else {
          FeedbackKeepsTracks(t, bw, s.us[i], s.logs[i], pid, statuses[0]);
        }
      case Round(inps, x, sents) =>
        RoundKeepsInvariant(t, bw, s, inps, x, sents, s');
    }
  }

  lemma {:induction false} RoundKeepsInvariant(t: TbsTable, bw: Bandwidth, s: Sys, inps: seq<UeInput>, x: Inside,
                                               sents: seq<Option<Sent>>, s': Sys)
    requires SysInv(t, bw, s) && Step(t, bw, s, Round(inps, x, sents), s')
    ensures SysInv(t, bw, s')
  {
    HandOver(t, bw, EmptyMap(), s.us, Reports(inps), x.order, x.vrb, x.mid);
    forall i | 0 <= i < |s.us|
      ensures Tracks(t, bw, s'.us[i], s'.logs[i])
    {
      RoundKeepsTracks(t, bw, s.us[i], x.mid[i], s.logs[i], inps[i], x.mcs[i], s'.us[i], sents[i], x.mcs[i + 1]);
    }
  }

  /** In every run, with any feedback, every transmission to every UE is legal for its HARQ process, also if UEs
      leave and come back. */
  lemma {:induction false} EveryRunIsLegal(t: TbsTable, bw: Bandwidth, r: seq<Stage>)
    requires IsRun(t, bw, r)
    ensures SysInv(t, bw, Last(r))
    ensures forall i | 0 <= i < |Last(r).logs| :: LegalLog(Last(r).logs[i])
    ensures forall k | 0 <= k < |Last(r).gone| :: LegalLog(Last(r).gone[k].log)
  {
    if r == [] {
    } else {
      var before := r[..|r| - 1];
      EveryRunIsLegal(t, bw, before);
      StepKeepsInvariant(t, bw, Last(before), r[|r| - 1].event, r[|r| - 1].after);
    }
  }

  // ---------- what legality means ----------

  ghost predicate FedBetween(log: seq<HarqEvent>, p: nat, k: int, l: int) {
    exists m | k < m < l :: 0 <= m < |log| && log[m].Feedback? && log[m].pid == p
  }

  ghost predicate RejoinedBetween(log: seq<HarqEvent>, k: int, l: int) {
    exists m | k < m < l :: 0 <= m < |log| && log[m].Rejoined?
  }

  lemma {:induction false} InFlightSince(log: seq<HarqEvent>, k: nat, l: nat)
    requires k < l <= |log| && log[k].Transmission?
    requires !FedBetween(log, log[k].sent.dci.harqPid, k, l) && !RejoinedBetween(log, k, l)
    ensures ProcOf(log[..l], log[k].sent.dci.harqPid).inFlight
  {
    var p := log[k].sent.dci.harqPid;
    assert log[..l] == log[..l - 1] + [log[l - 1]];
    ProcSnoc(log[..l - 1], log[l - 1], p);
    if k == l - 1 {
    } else {
      assert !(log[l - 1].Feedback? && log[l - 1].pid == p) && !log[l - 1].Rejoined?;
      InFlightSince(log, k, l - 1);
    }
  }

  /** Between two uses of one HARQ process there is feedback for it, or the UE has rejoined. */
  lemma {:induction false} ReuseNeedsFeedback(log: seq<HarqEvent>, k: nat, l: nat)
    requires LegalLog(log) && k < l < |log| && log[k].Transmission? && log[l].Transmission?
    requires log[k].sent.dci.harqPid == log[l].sent.dci.harqPid
    ensures FedBetween(log, log[k].sent.dci.harqPid, k, l) || RejoinedBetween(log, k, l)
  {
    if !FedBetween(log, log[k].sent.dci.harqPid, k, l) && !RejoinedBetween(log, k, l) {
      InFlightSince(log, k, l);
    }
  }

  function NewCount(log: seq<HarqEvent>, p: nat): nat {
    if log == [] then 0
    else
      var e := log[|log| - 1];
      NewCount(log[..|log| - 1], p) + (if e.Transmission? && e.sent.isNew && e.sent.dci.harqPid == p then 1 else 0)
  }

  lemma {:induction false} NewCountOf(log: seq<HarqEvent>, p: nat)
    ensures ProcOf(log, p).newCount == NewCount(log, p)
  {
    if log == [] {
    } else {
      NewCountOf(log[..|log| - 1], p);
    }
  }

  /** Every transmission carries the parity of the new transmissions of its process, itself included. */
  lemma {:induction false} IndicatorIsParity(log: seq<HarqEvent>, k: nat)
    requires LegalLog(log) && k < |log| && log[k].Transmission?
    ensures log[k].sent.dci.ndi == NewCount(log[..k + 1], log[k].sent.dci.harqPid) % 2
  {
    var p := log[k].sent.dci.harqPid;
    NewCountOf(log[..k], p);
    assert log[..k + 1][..k] == log[..k];
  }
}
