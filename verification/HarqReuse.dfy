/** When a HARQ process is used again without feedback in between, over whole runs. */
module HarqReuse {
  import opened Options
  import opened Primitives
  import opened Sequences
  import opened UeScheduling
  import opened PreprocessorRun
  import opened Policy
  import opened PolicyRun
  import opened HarqRuns

  /** The rule: any two uses of a process have feedback in between. */
  ghost predicate AlwaysWaitsForFeedback(log: seq<HarqEvent>) {
    forall k, l | 0 <= k < l < |log| && log[k].Transmission? && log[l].Transmission?
                  && log[k].sent.dci.harqPid == log[l].sent.dci.harqPid ::
      FedBetween(log, log[l].sent.dci.harqPid, k, l)
  }

  /** The process was used and has had no feedback since. */
  predicate Outstanding(log: seq<HarqEvent>, p: nat) {
    log != [] &&
    match log[|log| - 1]
    case Feedback(pid, _) => pid != p && Outstanding(log[..|log| - 1], p)
    case Transmission(s) => s.dci.harqPid == p || Outstanding(log[..|log| - 1], p)
    case Rejoined => Outstanding(log[..|log| - 1], p)
  }

  lemma {:induction false} OutstandingSnoc(log: seq<HarqEvent>, e: HarqEvent, p: nat)
    ensures Outstanding(log + [e], p) <==>
      match e
      case Feedback(pid, _) => pid != p && Outstanding(log, p)
      case Transmission(s) => s.dci.harqPid == p || Outstanding(log, p)
      case Rejoined => Outstanding(log, p)
  {
    assert (log + [e])[..|log|] == log;
  }

  // ---------- one log ----------

  lemma {:induction false} FedInMore(log: seq<HarqEvent>, e: HarqEvent, p: nat, k: nat, l: nat)
    requires l <= |log|
    ensures FedBetween(log + [e], p, k, l) <==> FedBetween(log, p, k, l)
  {
    var more := log + [e];
    assert forall m | 0 <= m < |log| :: more[m] == log[m];
  }

  lemma {:induction false} FedWithLast(log: seq<HarqEvent>, e: HarqEvent, p: nat, k: nat)
    requires k < |log|
    ensures FedBetween(log + [e], p, k, |log| + 1) <==>
      FedBetween(log, p, k, |log|) || (e.Feedback? && e.pid == p)
  {
    var more := log + [e];
    assert more[|log|] == e && forall m | 0 <= m < |log| :: more[m] == log[m];
  }

  /** A process is outstanding exactly when one of its uses has no feedback after it. */
  lemma {:induction false} OutstandingIs(log: seq<HarqEvent>, p: nat)
    ensures Outstanding(log, p) <==>
      exists k :: 0 <= k < |log| && log[k].Transmission? && log[k].sent.dci.harqPid == p
                  && !FedBetween(log, p, k, |log|)
  {
    if log == [] {
    } else {
      var init, e := log[..|log| - 1], log[|log| - 1];
      OutstandingIs(init, p);
      assert log == init + [e];
      forall k: nat | k < |init| {
        FedWithLast(init, e, p, k);
      }
      assert !FedBetween(log, p, |init|, |log|);
      assert forall k | 0 <= k < |init| :: init[k] == log[k];
    }
  }

  lemma {:induction false} RuleOfPrefix(log: seq<HarqEvent>, e: HarqEvent)
    requires AlwaysWaitsForFeedback(log + [e])
    ensures AlwaysWaitsForFeedback(log)
  {
    var more := log + [e];
    forall k, l | 0 <= k < l < |log| && log[k].Transmission? && log[l].Transmission?
                  && log[k].sent.dci.harqPid == log[l].sent.dci.harqPid
      ensures FedBetween(log, log[l].sent.dci.harqPid, k, l)
    {
      assert more[k] == log[k] && more[l] == log[l];
      FedInMore(log, e, log[l].sent.dci.harqPid, k, l);
    }
  }

  lemma {:induction false} RuleOfMore(log: seq<HarqEvent>, e: HarqEvent)
    requires AlwaysWaitsForFeedback(log) && (e.Transmission? ==> !Outstanding(log, e.sent.dci.harqPid))
    ensures AlwaysWaitsForFeedback(log + [e])
  {
    var more := log + [e];
    forall k, l | 0 <= k < l < |more| && more[k].Transmission? && more[l].Transmission?
                  && more[k].sent.dci.harqPid == more[l].sent.dci.harqPid
      ensures FedBetween(more, more[l].sent.dci.harqPid, k, l)
    {
      assert more[k] == log[k];
      FedInMore(log, e, more[l].sent.dci.harqPid, k, l);
      if l < |log| {
        assert more[l] == log[l];
      } else {
        OutstandingIs(log, e.sent.dci.harqPid);
      }
    }
  }

  /** One more transmission breaks the rule exactly when its process is outstanding. */
  lemma {:induction false} SendingKeepsRuleExactlyWhen(log: seq<HarqEvent>, s: Sent)
    requires AlwaysWaitsForFeedback(log)
    ensures AlwaysWaitsForFeedback(log + [Transmission(s)]) <==> !Outstanding(log, s.dci.harqPid)
  {
    var p, more := s.dci.harqPid, log + [Transmission(s)];
    if Outstanding(log, p) {
      OutstandingIs(log, p);
      var k :| 0 <= k < |log| && log[k].Transmission? && log[k].sent.dci.harqPid == p
               && !FedBetween(log, p, k, |log|);
      FedInMore(log, Transmission(s), p, k, |log|);
      assert more[k] == log[k] && more[|log|] == Transmission(s);
    } else {
      RuleOfMore(log, Transmission(s));
    }
  }

  /** A process that is outstanding is in flight, or taken to be acknowledged since the UE rejoined. */
  lemma {:induction false} OutstandingIsUnanswered(log: seq<HarqEvent>, p: nat)
    requires LegalLog(log) && Outstanding(log, p)
    ensures ProcOf(log, p).inFlight || ProcOf(log, p).status == 0
  {
    var init, e := log[..|log| - 1], log[|log| - 1];
    assert log == init + [e];
    ProcSnoc(init, e, p);
    if Outstanding(init, p) {
      LegalInit(log);
      OutstandingIsUnanswered(init, p);
    }
  }

  lemma {:induction false} LegalInit(log: seq<HarqEvent>)
    requires LegalLog(log) && log != []
    ensures LegalLog(log[..|log| - 1])
  {
    var init := log[..|log| - 1];
    forall k | 0 <= k < |init|
      ensures init[..k] == log[..k] && init[k] == log[k]
    {
    }
  }

  // ---------- one step ----------

  /** All that has happened to UEs present and gone keeps the rule. */
  ghost predicate KeepsRule(s: Sys) {
    && (forall i | 0 <= i < |s.logs| :: AlwaysWaitsForFeedback(s.logs[i]))
    && forall k | 0 <= k < |s.gone| :: AlwaysWaitsForFeedback(s.gone[k].log)
  }

  /** The round sends to UE `i` although the process it has to use is outstanding. */
  ghost predicate SendsUnanswered(s: Sys, sents: seq<Option<Sent>>, i: nat) {
    && i < |s.us| && i < |sents| && i < |s.logs| && sents[i].Some?
    && NextHarq(s.us[i].harq, 0) != -1 && Outstanding(s.logs[i], NextHarq(s.us[i].harq, 0))
  }

  ghost predicate Breaks(s: Sys, e: Event) {
    e.Round? && exists i: nat :: SendsUnanswered(s, e.sents, i)
  }

  lemma {:induction false} SendUsesNext(t: TbsTable, bw: Bandwidth, s: Sys, e: Event, s': Sys, i: nat)
    requires SysInv(t, bw, s) && Step(t, bw, s, e, s') && e.Round? && i < |s.us| == |e.sents| && e.sents[i].Some?
    ensures NextHarq(s.us[i].harq, 0) == e.sents[i].value.dci.harqPid
    ensures s'.logs[i] == s.logs[i] + [Transmission(e.sents[i].value)]
  {
    HandOver(t, bw, EmptyMap(), s.us, Reports(e.inps), e.x.order, e.x.vrb, e.x.mid);
    assert HandedOver(bw, s.us[i], e.x.mid[i]);
    assert SendStep(t, bw, e.x.mid[i], e.inps[i], e.x.mcs[i], s'.us[i], e.sents[i], e.x.mcs[i + 1]);
  }

  /** A round keeps the rule for a UE that it sends to exactly if the lowest available process is not outstanding. */
  lemma {:induction false} RoundKeepsRuleExactlyWhen(t: TbsTable, bw: Bandwidth, s: Sys, e: Event, s': Sys, i: nat)
    requires SysInv(t, bw, s) && Step(t, bw, s, e, s') && e.Round? && i < |s.us| == |e.sents| && e.sents[i].Some?
    requires AlwaysWaitsForFeedback(s.logs[i])
    ensures var p := NextHarq(s.us[i].harq, 0);
      p != -1 && (AlwaysWaitsForFeedback(s'.logs[i]) <==> !Outstanding(s.logs[i], p))
  {
    SendUsesNext(t, bw, s, e, s', i);
    SendingKeepsRuleExactlyWhen(s.logs[i], e.sents[i].value);
  }

  /** It is new data that breaks the rule: an outstanding process that is available counts as acknowledged. */
  lemma {:induction false} OnlyNewDataBreaks(t: TbsTable, bw: Bandwidth, s: Sys, e: Event, s': Sys, i: nat)
    requires SysInv(t, bw, s) && Step(t, bw, s, e, s') && e.Round? && SendsUnanswered(s, e.sents, i)
    ensures e.sents[i].value.isNew
  {
    SendUsesNext(t, bw, s, e, s', i);
    var p: nat := NextHarq(s.us[i].harq, 0);
    assert TracksProc(t, s.us[i], p, ProcOf(s.logs[i], p));
    OutstandingIsUnanswered(s.logs[i], p);
    StepKeepsInvariant(t, bw, s, e, s');
    assert s'.logs[i][..|s.logs[i]|] == s.logs[i];
    assert s'.logs[i][|s.logs[i]|] == Transmission(e.sents[i].value);
  }

  lemma {:induction false} RoundAtUe(t: TbsTable, bw: Bandwidth, s: Sys, e: Event, s': Sys, i: nat)
    requires SysInv(t, bw, s) && Step(t, bw, s, e, s') && e.Round? && i < |s.us| == |e.sents|
    requires AlwaysWaitsForFeedback(s.logs[i])
    ensures AlwaysWaitsForFeedback(s'.logs[i]) <==> !SendsUnanswered(s, e.sents, i)
  {
    if e.sents[i].Some? {
      RoundKeepsRuleExactlyWhen(t, bw, s, e, s', i);
    } else {
      assert s.logs[i] + [] == s.logs[i];
    }
  }

  lemma {:induction false} RuleOfAll(s: Sys, sents: seq<Option<Sent>>, s': Sys)
    requires |s'.logs| == |s.logs| == |s.us| == |sents| && s'.gone == s.gone && KeepsRule(s)
    requires forall i: nat | i < |s.us| :: AlwaysWaitsForFeedback(s'.logs[i]) <==> !SendsUnanswered(s, sents, i)
    ensures KeepsRule(s') <==> !exists i: nat :: SendsUnanswered(s, sents, i)
  {
  }

  lemma {:induction false} RoundKeepsRule(t: TbsTable, bw: Bandwidth, s: Sys, e: Event, s': Sys)
    requires SysInv(t, bw, s) && Step(t, bw, s, e, s') && e.Round? && KeepsRule(s)
    ensures KeepsRule(s') <==> !Breaks(s, e)
  {
    forall i: nat | i < |s.us|
      ensures AlwaysWaitsForFeedback(s'.logs[i]) <==> !SendsUnanswered(s, e.sents, i)
    {
      RoundAtUe(t, bw, s, e, s', i);
    }
    RuleOfAll(s, e.sents, s');
  }

  /** A step keeps the rule exactly unless it is a round that sends on an outstanding process. */
  lemma {:induction false} StepKeepsRuleExactlyWhen(t: TbsTable, bw: Bandwidth, s: Sys, e: Event, s': Sys)
    requires SysInv(t, bw, s) && Step(t, bw, s, e, s') && KeepsRule(s)
    ensures KeepsRule(s') <==> !Breaks(s, e)
  {
    match e {
      case Join =>
      case Leave(i) =>
      case Rejoin(k) =>
        RuleOfMore(s.gone[k].log, Rejoined);
      case HarqFeedback(i, pid, statuses) =>
        if statuses == [] {
          assert s.logs[i] + [] == s.logs[i];
        } else {
          RuleOfMore(s.logs[i], Feedback(pid, statuses[0]));
        }
      case Round(inps, x, sents) =>
        RoundKeepsRule(t, bw, s, e, s');
    }
  }

  /** What broke the rule once is not mended by any later step. */
  lemma {:induction false} StepMendsNothing(t: TbsTable, bw: Bandwidth, s: Sys, e: Event, s': Sys)
    requires Step(t, bw, s, e, s') && KeepsRule(s')
    ensures KeepsRule(s)
  {
    match e {
      case Join =>
        assert forall i | 0 <= i < |s.logs| :: s'.logs[i] == s.logs[i];
      case Leave(i) =>
        LeaverIsRemembered(s, i, s');
      case Rejoin(k) =>
        RejoinerIsRemembered(s, k, s');
      case HarqFeedback(i, pid, statuses) =>
        if statuses == [] {
          assert s.logs[i] + [] == s.logs[i] && s'.logs == s.logs;
        } else {
          FeedbackMendsNothing(s, i, Feedback(pid, statuses[0]), s');
        }
      case Round(inps, x, sents) =>
        forall i | 0 <= i < |s.logs|
          ensures AlwaysWaitsForFeedback(s.logs[i])
        {
          if sents[i].Some? {
            RuleOfPrefix(s.logs[i], Transmission(sents[i].value));
          } else {
            assert s.logs[i] + [] == s.logs[i];
          }
        }
    }
  }

  lemma {:induction false} FeedbackMendsNothing(s: Sys, i: nat, e: HarqEvent, s': Sys)
    requires i < |s.logs| && s'.logs == s.logs[i := s.logs[i] + [e]] && s'.gone == s.gone && KeepsRule(s')
    ensures KeepsRule(s)
  {
    assert s'.logs[i] == s.logs[i] + [e];
    RuleOfPrefix(s.logs[i], e);
    assert forall j | 0 <= j < |s.logs| && j != i :: s'.logs[j] == s.logs[j];
  }

  lemma {:induction false} LeaverIsRemembered(s: Sys, i: nat, s': Sys)
    requires i < |s.us| == |s.logs| && s'.logs == Without(s.logs, i)
    requires s'.gone == s.gone + [Gone(s.us[i].alloc, s.us[i].tx, s.logs[i])] && KeepsRule(s')
    ensures KeepsRule(s)
  {
    forall j | 0 <= j < |s.logs|
      ensures AlwaysWaitsForFeedback(s.logs[j])
    {
      assert if j == i then s'.gone[|s.gone|].log == s.logs[j]
             else s'.logs[if j < i then j else j - 1] == s.logs[j];
    }
    assert forall k | 0 <= k < |s.gone| :: s'.gone[k] == s.gone[k];
  }

  lemma {:induction false} RejoinerIsRemembered(s: Sys, k: nat, s': Sys)
    requires k < |s.gone| && s'.logs == s.logs + [s.gone[k].log + [Rejoined]]
    requires s'.gone == Without(s.gone, k) && KeepsRule(s')
    ensures KeepsRule(s)
  {
    assert forall i | 0 <= i < |s.logs| :: s'.logs[i] == s.logs[i];
    forall j | 0 <= j < |s.gone|
      ensures AlwaysWaitsForFeedback(s.gone[j].log)
    {
      if j == k {
        assert s'.logs[|s.logs|] == s.gone[k].log + [Rejoined];
        RuleOfPrefix(s.gone[k].log, Rejoined);
      } else {
        assert s'.gone[if j < k then j else j - 1] == s.gone[j];
      }
    }
  }

  // ---------- whole runs ----------

  /** No round of the run sends on a process outstanding before it. */
  ghost predicate NeverBreaks(r: seq<Stage>) {
    forall n: nat | n < |r| :: !Breaks(Last(r[..n]), r[n].event)
  }

  lemma {:induction false} NeverBreaksSnoc(r: seq<Stage>)
    requires r != []
    ensures NeverBreaks(r) <==> NeverBreaks(r[..|r| - 1]) && !Breaks(Last(r[..|r| - 1]), r[|r| - 1].event)
  {
    var before := r[..|r| - 1];
    assert forall n: nat | n < |before| :: before[..n] == r[..n] && before[n] == r[n];
  }

  /** A run keeps the rule exactly when none of its rounds sends on a process outstanding before it. */
  lemma {:induction false} EveryRunKeepsRuleExactlyWhen(t: TbsTable, bw: Bandwidth, r: seq<Stage>)
    requires IsRun(t, bw, r)
    ensures KeepsRule(Last(r)) <==> NeverBreaks(r)
  {
    if r == [] {
    } else {
      var before, now := r[..|r| - 1], r[|r| - 1];
      EveryRunKeepsRuleExactlyWhen(t, bw, before);
      EveryRunIsLegal(t, bw, before);
      NeverBreaksSnoc(r);
      if KeepsRule(Last(before)) {
        StepKeepsRuleExactlyWhen(t, bw, Last(before), now.event, now.after);
      } else if KeepsRule(now.after) {
        StepMendsNothing(t, bw, Last(before), now.event, now.after);
      }
    }
  }

  // ---------- what the environment can do for it ----------

  /** A UE comes back while one of its processes is outstanding. */
  ghost predicate RejoinsUnanswered(s: Sys, e: Event) {
    e.Rejoin? && e.k < |s.gone| && exists p: nat :: Outstanding(s.gone[e.k].log, p)
  }

  ghost predicate RejoinsAnswered(r: seq<Stage>) {
    forall n: nat | n < |r| :: !RejoinsUnanswered(Last(r[..n]), r[n].event)
  }

  lemma {:induction false} RejoinsAnsweredInit(r: seq<Stage>)
    requires r != [] && RejoinsAnswered(r)
    ensures RejoinsAnswered(r[..|r| - 1]) && !RejoinsUnanswered(Last(r[..|r| - 1]), r[|r| - 1].event)
  {
    var before := r[..|r| - 1];
    assert forall n: nat | n < |before| :: before[..n] == r[..n] && before[n] == r[n];
  }

  /** Everything outstanding is in flight. */
  ghost predicate Answered(log: seq<HarqEvent>) {
    forall p: nat :: Outstanding(log, p) ==> ProcOf(log, p).inFlight
  }

  ghost predicate AllAnswered(s: Sys) {
    && (forall i | 0 <= i < |s.logs| :: Answered(s.logs[i]))
    && forall k | 0 <= k < |s.gone| :: Answered(s.gone[k].log)
  }

  lemma {:induction false} AnsweredSnoc(log: seq<HarqEvent>, e: HarqEvent)
    requires Answered(log) && (e.Rejoined? ==> forall p: nat :: !Outstanding(log, p))
    ensures Answered(log + [e])
  {
    forall p: nat
      ensures Outstanding(log + [e], p) ==> ProcOf(log + [e], p).inFlight
    {
      OutstandingSnoc(log, e, p);
      ProcSnoc(log, e, p);
    }
  }

  lemma {:induction false} StepKeepsAnswered(t: TbsTable, bw: Bandwidth, s: Sys, e: Event, s': Sys)
    requires Step(t, bw, s, e, s') && AllAnswered(s) && !RejoinsUnanswered(s, e)
    ensures AllAnswered(s')
  {
    match e {
      case Join =>
      case Leave(i) =>
      case Rejoin(k) =>
        AnsweredSnoc(s.gone[k].log, Rejoined);
      case HarqFeedback(i, pid, statuses) =>
        if statuses == [] {
          assert s.logs[i] + [] == s.logs[i];
        } else {
          AnsweredSnoc(s.logs[i], Feedback(pid, statuses[0]));
        }
      case Round(inps, x, sents) =>
        forall i | 0 <= i < |s.us|
          ensures Answered(s'.logs[i])
        {
          if sents[i].Some? {
            AnsweredSnoc(s.logs[i], Transmission(sents[i].value));
          } else {
            assert s.logs[i] + [] == s.logs[i];
          }
        }
    }
  }

  /** What is available has been answered. */
  lemma {:induction false} AvailableIsAnswered(t: TbsTable, bw: Bandwidth, u: UeState, log: seq<HarqEvent>, p: nat)
    requires Tracks(t, bw, u, log) && Answered(log) && p < MAX_NUM_HARQ && u.harq.active[p]
    ensures !Outstanding(log, p)
  {
    assert TracksProc(t, u, p, ProcOf(log, p));
  }

  lemma {:induction false} AnsweredKeepsRule(t: TbsTable, bw: Bandwidth, s: Sys, e: Event)
    requires SysInv(t, bw, s) && AllAnswered(s)
    ensures !Breaks(s, e)
  {
    forall i: nat | i < |s.us|
      ensures NextHarq(s.us[i].harq, 0) != -1 ==> !Outstanding(s.logs[i], NextHarq(s.us[i].harq, 0))
    {
      if NextHarq(s.us[i].harq, 0) != -1 {
        AvailableIsAnswered(t, bw, s.us[i], s.logs[i], NextHarq(s.us[i].harq, 0));
      }
    }
  }

  /** If no UE rejoins with a process outstanding, the scheduler keeps the rule whatever else happens. */
  lemma {:induction false} AnsweredRejoinsKeepRule(t: TbsTable, bw: Bandwidth, r: seq<Stage>)
    requires IsRun(t, bw, r)
    requires RejoinsAnswered(r)
    ensures AllAnswered(Last(r)) && KeepsRule(Last(r))
  {
    if r == [] {
    } else {
      var before, now := r[..|r| - 1], r[|r| - 1];
      RejoinsAnsweredInit(r);
      AnsweredRejoinsKeepRule(t, bw, before);
      EveryRunIsLegal(t, bw, before);
      AnsweredKeepsRule(t, bw, Last(before), now.event);
      StepKeepsAnswered(t, bw, Last(before), now.event, now.after);
      StepKeepsRuleExactlyWhen(t, bw, Last(before), now.event, now.after);
    }
  }
}
