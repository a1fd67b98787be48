/** In which order UEs are served, said of their reports and HARQ state alone. */
module ServingOrder {
  import opened Primitives
  import opened UeScheduling
  import opened Preprocessor
  import opened PreprocessorRun

  function Sum(xs: seq<nat>): nat {
    if xs == [] then 0 else xs[0] + Sum(xs[1..])
  }

  /** The bytes queued on the common control and first dedicated channels. */
  function ControlQueues(rlc: seq<RlcReport>): seq<nat> {
    seq(|rlc|, i requires 0 <= i < |rlc| => if rlc[i].lcId in {1, 2} then rlc[i].txQueueSize else 0)
  }

  function Queues(rlc: seq<RlcReport>): seq<nat> {
    seq(|rlc|, i requires 0 <= i < |rlc| => rlc[i].txQueueSize)
  }

  /** The largest delay of any channel, 0 without channels. */
  ghost predicate IsLargestDelay(rlc: seq<RlcReport>, d: nat) {
    && (forall i | 0 <= i < |rlc| :: rlc[i].holDelay <= d)
    && (if rlc == [] then d == 0 else exists i | 0 <= i < |rlc| :: rlc[i].holDelay == d)
  }

  /** The lowest process that is free. */
  ghost predicate IsLowestFree(h: Harq, p: nat) {
    p < MAX_NUM_HARQ && h.active[p] && forall q | 0 <= q < p :: !h.active[q]
  }

  ghost predicate NoneFree(h: Harq) {
    forall q | 0 <= q < MAX_NUM_HARQ :: !h.active[q]
  }

  /**
   * What a UE is ordered by: the status of its lowest free process, the bytes on channels 1 and 2, the largest
   * head-of-line delay, all bytes, and the channel quality; all 0 without a free process.
   */
  ghost predicate AreFigures(h: Harq, r: UeReport, f: seq<nat>) {
    && |f| == 5
    && (NoneFree(h) ==> f == [0, 0, 0, 0, 0])
    && forall p: nat | IsLowestFree(h, p) ::
      && f[0] == h.stats[p] && f[1] == Sum(ControlQueues(r.rlc)) && IsLargestDelay(r.rlc, f[2])
      && f[3] == Sum(Queues(r.rlc)) && f[4] == r.wbCqi.GetOr(0)
  }

  /** At least as large in the first figure in which they differ. */
  ghost predicate AtLeast(f: seq<nat>, g: seq<nat>)
    requires |f| == |g|
  {
    forall n | 0 <= n < |f| && f[..n] == g[..n] :: f[n] >= g[n]
  }

  lemma {:induction false} SumOfMore(xs: seq<nat>, x: nat)
    ensures Sum(xs + [x]) == Sum(xs) + x
  {
    if xs == [] {
    } else {
      assert (xs + [x])[1..] == xs[1..] + [x];
      SumOfMore(xs[1..], x);
    }
  }

  lemma {:induction false} BytesAreSums(rlc: seq<RlcReport>)
    ensures QueuedBytes(rlc) == Sum(Queues(rlc)) && CcchBytes(rlc) == Sum(ControlQueues(rlc))
  {
    if rlc == [] {
    } else {
      var init, last := rlc[..|rlc| - 1], rlc[|rlc| - 1];
      BytesAreSums(init);
      assert Queues(rlc) == Queues(init) + [last.txQueueSize];
      assert ControlQueues(rlc) == ControlQueues(init) + [if last.lcId in {1, 2} then last.txQueueSize else 0];
      SumOfMore(Queues(init), last.txQueueSize);
      SumOfMore(ControlQueues(init), if last.lcId in {1, 2} then last.txQueueSize else 0);
    }
  }

  lemma {:induction false} DelayIsLargest(rlc: seq<RlcReport>)
    ensures IsLargestDelay(rlc, MaxHolDelay(rlc))
  {
    if rlc == [] {
    } else {
      var init, last := rlc[..|rlc| - 1], rlc[|rlc| - 1];
      DelayIsLargest(init);
      if MaxHolDelay(init) >= last.holDelay {
        if init != [] {
          var i :| 0 <= i < |init| && init[i].holDelay == MaxHolDelay(init);
          assert rlc[i].holDelay == MaxHolDelay(rlc);
        }
      }
      forall i | 0 <= i < |rlc|
        ensures rlc[i].holDelay <= MaxHolDelay(rlc)
      {
        assert i < |init| ==> rlc[i] == init[i];
      }
    }
  }

  function AsFigures(s: UeStats): seq<nat> {
    [s.harqRound, s.bytesInCcch, s.holDelay, s.totalBytes, s.cqi]
  }

  /** Every UE has its figures, and only those. */
  lemma {:induction false} FiguresOf(h: Harq, r: UeReport)
    ensures AreFigures(h, r, AsFigures(StatsOf(h, r)))
    ensures forall f | AreFigures(h, r, f) :: f == AsFigures(StatsOf(h, r))
  {
    BytesAreSums(r.rlc);
    DelayIsLargest(r.rlc);
    var p := NextHarq(h, 0);
    if p != -1 {
      assert IsLowestFree(h, p);
      forall f | AreFigures(h, r, f)
        ensures f == AsFigures(StatsOf(h, r))
      {
        OneLargest(r.rlc, f[2], MaxHolDelay(r.rlc));
      }
    }
  }

  lemma {:induction false} OneLargest(rlc: seq<RlcReport>, d: nat, e: nat)
    requires IsLargestDelay(rlc, d) && IsLargestDelay(rlc, e)
    ensures d == e
  {
  }

  lemma {:induction false} ComparedIsAtLeast(a: UeStats, b: UeStats)
    requires CompareStats(a, b)
    ensures AtLeast(AsFigures(a), AsFigures(b))
  {
    var f, g := AsFigures(a), AsFigures(b);
    forall n | 0 <= n < 5 && f[..n] == g[..n]
      ensures f[n] >= g[n]
    {
      SamePrefix(f, g, n);
      assert n > 0 ==> f[0] == g[0];
      assert n > 1 ==> f[1] == g[1];
      assert n > 2 ==> f[2] == g[2];
      assert n > 3 ==> f[3] == g[3];
    }
  }

  lemma {:induction false} SamePrefix(f: seq<nat>, g: seq<nat>, n: nat)
    requires n <= |f| == |g| && f[..n] == g[..n]
    ensures forall m | 0 <= m < n :: f[m] == g[m]
  {
    forall m | 0 <= m < n
      ensures f[m] == g[m]
    {
      assert f[..n][m] == g[..n][m];
    }
  }

  /**
   * Whoever is served earlier has figures at least as large: retransmissions come first, then control traffic,
   * then who has waited longest, then who has most to send, then who hears best.
   */
  lemma {:induction false} ServedInOrder(t: TbsTable, bw: Bandwidth, vrb: RbgMap, us: seq<UeState>,
                                         reports: seq<UeReport>, order: seq<nat>, vrb': RbgMap, mid: seq<UeState>,
                                         k: nat, l: nat, f: seq<nat>, g: seq<nat>)
    requires |us| == |reports| && forall i | 0 <= i < |reports| :: ReportOk(reports[i])
    requires Preprocessed(t, bw, vrb, us, reports, order, vrb', mid) && k < l < |order|
    requires AreFigures(us[order[k]].harq, reports[order[k]], f)
    requires AreFigures(us[order[l]].harq, reports[order[l]], g)
    ensures AtLeast(f, g)
  {
    var stats := StatsAll(OpenedAll(t, bw, us, reports), reports);
    FiguresOf(us[order[k]].harq, reports[order[k]]);
    FiguresOf(us[order[l]].harq, reports[order[l]]);
    ComparedIsAtLeast(stats[order[k]], stats[order[l]]);
  }
}
