/** What is listed, and in which order: UEs, and the logical channel configs beside them. */
module UeListProofs {
  import opened Messages
  import opened Sequences
  import opened UeTables
  import opened UeTableProofs

  // ---------- logical channel configs ----------

  /** The UE was deactivated while it was known, after the first `n` messages. */
  ghost predicate ForgottenSince(es: seq<Event>, n: nat, rnti: int) {
    exists k | n <= k < |es| ::
      es[k].State? && es[k].change == Deactivated && Rnti(es[k].config) == rnti && Live(es[..k], rnti)
  }

  /** The last message with logical channel configs is the one before the first `n`. */
  predicate IsLastLc(es: seq<Event>, n: nat, reply: seq<Message>) {
    && 0 < n <= |es| && es[n - 1] == Lc(reply) && reply != []
    && forall k | n <= k < |es| :: es[k].Lc? ==> es[k].reply == []
  }

  /** A part of the list in its order, whose elements have different RNTIs. */
  ghost predicate InOrderOf(part: seq<Message>, all: seq<Message>) {
    && (forall m | m in part :: m in all)
    && forall i, j | 0 <= i < j < |part| ::
      IndexOf(Rntis(all), Rnti(part[i])) < IndexOf(Rntis(all), Rnti(part[j]))
  }

  lemma {:induction false} ForgottenInMore(es: seq<Event>, e: Event, n: nat, rnti: int)
    requires n <= |es|
    ensures ForgottenSince(es + [e], n, rnti) <==>
      || ForgottenSince(es, n, rnti)
      || (e.State? && e.change == Deactivated && Rnti(e.config) == rnti && Live(es, rnti))
  {
    var more := es + [e];
    assert more[..|es|] == es && more[|es|] == e;
    assert forall k | n <= k < |es| :: more[k] == es[k] && more[..k] == es[..k];
    if ForgottenSince(es, n, rnti) {
      var k :| n <= k < |es| && es[k].State? && es[k].change == Deactivated && Rnti(es[k].config) == rnti
               && Live(es[..k], rnti);
      assert more[k] == es[k] && more[..k] == es[..k];
    }
  }

  /** Only a message with logical channel configs, or the deactivation of a known UE, touches them. */
  lemma {:induction false} LcsAreLeftAlone(es: seq<Event>, e: Event)
    requires e.Lc? ==> e.reply == []
    requires e.State? && e.change == Deactivated ==> !Live(es, Rnti(e.config))
    ensures Next(After(es), e).lcs == After(es).lcs
  {
    if e.State? && e.change == Deactivated {
      KnownIsLive(es, Rnti(e.config));
    }
  }

  lemma {:induction false} KnownIsLive(es: seq<Event>, rnti: int)
    ensures IndexOf(Rntis(After(es).ues), rnti) < |After(es).ues| <==> Live(es, rnti)
  {
    EveryRunIsFaithful(es);
    var t := After(es);
    assert rnti in t.macs <==> Live(es, rnti);
    assert rnti in RntiSet(t) <==> rnti in Rntis(t.ues);
    if rnti in Rntis(t.ues) {
      var i :| 0 <= i < |t.ues| && Rntis(t.ues)[i] == rnti;
    }
  }

  /** An RNTI stands once in a part in order. */
  lemma {:induction false} StandsOnce(part: seq<Message>, all: seq<Message>, l: nat, k: nat)
    requires InOrderOf(part, all) && l < |part| && k < |part| && k != l
    ensures Rnti(part[k]) != Rnti(part[l])
  {
  }

  lemma {:induction false} WithoutInOrder(part: seq<Message>, all: seq<Message>, l: nat)
    requires InOrderOf(part, all) && l < |part|
    ensures InOrderOf(Without(part, l), all)
  {
    var rest := Without(part, l);
    forall m | m in rest
      ensures m in all
    {
      var i :| 0 <= i < |rest| && rest[i] == m;
      assert part[if i < l then i else i + 1] == m;
    }
  }

  lemma {:induction false} WithoutMembers(part: seq<Message>, l: nat, m: Message)
    requires l < |part| && forall k | 0 <= k < |part| && k != l :: Rnti(part[k]) != Rnti(part[l])
    ensures m in Without(part, l) <==> m in part && Rnti(m) != Rnti(part[l])
  {
    var rest := Without(part, l);
    if m in part && Rnti(m) != Rnti(part[l]) {
      var i :| 0 <= i < |part| && part[i] == m;
      assert rest[if i < l then i else i - 1] == m;
    }
    if m in rest {
      var i :| 0 <= i < |rest| && rest[i] == m;
      assert part[if i < l then i else i + 1] == m;
    }
  }

  /** Taking one RNTI out of a part in order. */
  lemma {:induction false} WithoutOne(part: seq<Message>, all: seq<Message>, rnti: int, l: nat)
    requires InOrderOf(part, all) && l == IndexOf(Rntis(part), rnti)
    ensures var rest := if l == |part| then part else Without(part, l);
      InOrderOf(rest, all) && forall m :: m in rest <==> m in part && Rnti(m) != rnti
  {
    if l == |part| {
      forall m | m in part
        ensures Rnti(m) != rnti
      {
        var i :| 0 <= i < |part| && part[i] == m;
        assert Rntis(part)[i] == Rnti(m);
      }
    } else {
      assert Rntis(part)[l] == Rnti(part[l]);
      WithoutInOrder(part, all, l);
      forall k | 0 <= k < |part| && k != l
        ensures Rnti(part[k]) != Rnti(part[l])
      {
        StandsOnce(part, all, l, k);
      }
      forall m
        ensures m in Without(part, l) <==> m in part && Rnti(m) != rnti
      {
        WithoutMembers(part, l, m);
      }
    }
  }

  lemma {:induction false} WholeIsInOrder(all: seq<Message>)
    requires Distinct(Rntis(all))
    ensures InOrderOf(all, all)
  {
    forall i | 0 <= i < |all|
      ensures IndexOf(Rntis(all), Rnti(all[i])) == i
    {
      FirstIndex(Rntis(all), i);
    }
  }

  /**
   * Listed are exactly the configs of the last message with any, in its order, but for UEs that were deactivated
   * while known since.
   */
  lemma {:induction false} LcsAreWhatWasSaid(es: seq<Event>, n: nat, reply: seq<Message>)
    requires IsLastLc(es, n, reply) && Distinct(Rntis(reply))
    ensures InOrderOf(After(es).lcs, reply)
    ensures forall m :: m in After(es).lcs <==> m in reply && !ForgottenSince(es, n, Rnti(m))
  {
    var init, e := es[..|es| - 1], es[|es| - 1];
    assert es == init + [e];
    if |es| == n {
      WholeIsInOrder(reply);
    } else {
      assert forall k | n <= k < |init| :: init[k] == es[k];
      LcsAreWhatWasSaid(init, n, reply);
      forall rnti {
        ForgottenInMore(init, e, n, rnti);
      }
      OneMoreSaid(init, e, n, reply);
    }
  }

  lemma {:induction false} DeactivationTakesOne(t: Tables, config: Message)
    requires IndexOf(Rntis(t.ues), Rnti(config)) < |t.ues|
    ensures var l := IndexOf(Rntis(t.lcs), Rnti(config));
      ApplyChange(t, Deactivated, config).lcs == if l < |t.lcs| then Without(t.lcs, l) else t.lcs
  {
  }

  lemma {:induction false} OneMoreSaid(init: seq<Event>, e: Event, n: nat, reply: seq<Message>)
    requires n <= |init| && (e.Lc? ==> e.reply == []) && InOrderOf(After(init).lcs, reply)
    requires forall m :: m in After(init).lcs <==> m in reply && !ForgottenSince(init, n, Rnti(m))
    ensures InOrderOf(Next(After(init), e).lcs, reply)
    ensures forall m :: m in Next(After(init), e).lcs <==> m in reply && !ForgottenSince(init + [e], n, Rnti(m))
  {
    forall m
      ensures ForgottenSince(init + [e], n, Rnti(m)) <==>
        || ForgottenSince(init, n, Rnti(m))
        || (e.State? && e.change == Deactivated && Rnti(e.config) == Rnti(m) && Live(init, Rnti(m)))
    {
      ForgottenInMore(init, e, n, Rnti(m));
    }
    if e.State? && e.change == Deactivated && Live(init, Rnti(e.config)) {
      KnownIsLive(init, Rnti(e.config));
      DeactivationTakesOne(After(init), e.config);
      WithoutOne(After(init).lcs, reply, Rnti(e.config), IndexOf(Rntis(After(init).lcs), Rnti(e.config)));
    } else {
      LcsAreLeftAlone(init, e);
    }
  }

  /** Before the first message with any there are none. */
  lemma {:induction false} NoLcsAtFirst(es: seq<Event>)
    requires forall e | e in es :: e.Lc? ==> e.reply == []
    ensures After(es).lcs == []
  {
    if es == [] {
    } else {
      var init, e := es[..|es| - 1], es[|es| - 1];
      NoLcsAtFirst(init);
      assert e in es;
      if e.State? && e.change == Deactivated {
        assert Rntis(After(init).lcs) == [];
      }
    }
  }

  // ---------- the order of UEs ----------

  /** How many messages there were when the UE became known for the last time. */
  function KnownSince(es: seq<Event>, rnti: int): nat {
    if es == [] then 0
    else
      var init, e := es[..|es| - 1], es[|es| - 1];
      if e.State? && e.change == Activated && Rnti(e.config) == rnti && !Live(init, rnti) then |es|
      else KnownSince(init, rnti)
  }

  lemma {:induction false} KnownSinceBound(es: seq<Event>, rnti: int)
    ensures KnownSince(es, rnti) <= |es|
  {
    if es == [] {
    } else {
      KnownSinceBound(es[..|es| - 1], rnti);
    }
  }

  /** UEs are listed in the order in which they became known. */
  ghost predicate InOrderOfActivation(es: seq<Event>, xs: seq<int>) {
    forall i, j | 0 <= i < j < |xs| :: KnownSince(es, xs[i]) < KnownSince(es, xs[j])
  }

  lemma {:induction false} UesAreInOrder(es: seq<Event>)
    ensures InOrderOfActivation(es, Rntis(After(es).ues))
  {
    if es == [] {
    } else {
      var init, e := es[..|es| - 1], es[|es| - 1];
      UesAreInOrder(init);
      EveryRunIsFaithful(init);
      assert es == init + [e];
      var xs, ys := Rntis(After(init).ues), Rntis(After(es).ues);
      forall r | r in xs
        ensures KnownSince(es, r) == KnownSince(init, r) <= |init|
      {
        assert r in RntiSet(After(init));
        KnownSinceBound(init, r);
      }
      match e
      case Reply(configs) =>
        ReplyAt(After(init).ues, configs);
      case Lc(_) =>
      case State(change, config) =>
        ChangeKeepsOrder(init, After(init), change, config);
    }
  }

  lemma {:induction false} RntisWith(cs: seq<Message>, c: Message)
    ensures Rntis(cs + [c]) == Rntis(cs) + [Rnti(c)]
  {
  }

  lemma {:induction false} RntisWithout(cs: seq<Message>, i: nat)
    requires i < |cs|
    ensures Rntis(Without(cs, i)) == Without(Rntis(cs), i)
  {
  }

  lemma {:induction false} RntisMerged(cs: seq<Message>, i: nat, c: Message)
    requires i < |cs| && Rnti(c) == Rnti(cs[i])
    ensures Rntis(cs[i := Merged(cs[i], c, STATE_BLOCKS)]) == Rntis(cs)
  {
    MergedKeepsRnti(cs[i], c, STATE_BLOCKS);
  }

  lemma {:induction false} RntisAfter(t: Tables, change: Change, config: Message, i: nat, xs: seq<int>)
    requires xs == Rntis(t.ues) && i == IndexOf(xs, Rnti(config))
    ensures Rntis(ApplyChange(t, change, config).ues) == (
              if i == |xs| then if change == Activated then xs + [Rnti(config)] else xs
              else if change == Deactivated then Without(xs, i)
              else xs)
  {
    if i == |xs| {
      RntisWith(t.ues, config);
    } else {
      RntisWithout(t.ues, i);
      assert xs[i] == Rnti(t.ues[i]);
      RntisMerged(t.ues, i, config);
    }
  }

  lemma {:induction false} ChangeKeepsOrder(init: seq<Event>, t: Tables, change: Change, config: Message)
    requires Lockstep(t) && (forall r :: r in t.macs <==> Live(init, r)) && InOrderOfActivation(init, Rntis(t.ues))
    requires forall r | r in Rntis(t.ues) ::
      KnownSince(init + [State(change, config)], r) == KnownSince(init, r) <= |init|
    ensures InOrderOfActivation(init + [State(change, config)], Rntis(ApplyChange(t, change, config).ues))
  {
    var i, xs := IndexOf(Rntis(t.ues), Rnti(config)), Rntis(t.ues);
    RntisAfter(t, change, config, i, xs);
    assert Rnti(config) in RntiSet(t) <==> Rnti(config) in xs;
    OrderAfter(init, init + [State(change, config)], change, config, xs, i);
  }

  lemma {:induction false} OrderAfter(init: seq<Event>, es: seq<Event>, change: Change, config: Message, xs: seq<int>,
                                      i: nat)
    requires es == init + [State(change, config)] && i == IndexOf(xs, Rnti(config))
    requires Rnti(config) in xs <==> Live(init, Rnti(config))
    requires InOrderOfActivation(init, xs) && forall r | r in xs :: KnownSince(es, r) == KnownSince(init, r) <= |init|
    ensures InOrderOfActivation(es, xs)
    ensures i == |xs| && change == Activated ==> InOrderOfActivation(es, xs + [Rnti(config)])
    ensures i < |xs| ==> InOrderOfActivation(es, Without(xs, i))
  {
    assert InOrderOfActivation(es, xs);
    if i < |xs| {
      OrderWithout(es, xs, i);
    } else if change == Activated {
      NewIsLast(init, config);
      OrderWith(es, xs, Rnti(config));
    }
  }

  lemma {:induction false} OrderWith(es: seq<Event>, xs: seq<int>, r: int)
    requires InOrderOfActivation(es, xs) && forall x | x in xs :: KnownSince(es, x) < KnownSince(es, r)
    ensures InOrderOfActivation(es, xs + [r])
  {
  }

  lemma {:induction false} NewIsLast(init: seq<Event>, config: Message)
    requires !Live(init, Rnti(config))
    ensures KnownSince(init + [State(Activated, config)], Rnti(config)) == |init| + 1
  {
    assert (init + [State(Activated, config)])[..|init|] == init;
  }

  lemma {:induction false} OrderWithout(es: seq<Event>, xs: seq<int>, i: nat)
    requires InOrderOfActivation(es, xs) && i < |xs|
    ensures InOrderOfActivation(es, Without(xs, i))
  {
  }

  // ---------- the lists inside a UE's config ----------

  /** What is said replaces what was there, field by field, except that the lists in `grow` go on. */
  ghost predicate Heard(before: Message, said: Message, after: Message, grow: set<Path>) {
    && (forall p :: p in after.singular <==> p in before.singular || p in said.singular)
    && (forall p | p in after.singular ::
          after.singular[p] == if p in said.singular then said.singular[p] else before.singular[p])
    && forall p | p in {SCELLS, INFO_OFFSETS, SPS_ELEMENTS} :: ListHeard(before, said, after, p, p in grow)
  }

  predicate ListHeard(before: Message, said: Message, after: Message, p: Path, grows: bool) {
    && (p in after.repeated <==> p in before.repeated || p in said.repeated)
    && (p in after.repeated ==>
      after.repeated[p] == (
        if p !in said.repeated then before.repeated[p]
        else if grows && p in before.repeated then before.repeated[p] + said.repeated[p]
        else said.repeated[p]))
  }

  lemma {:induction false} WhereListsStand()
    ensures Inside([], SCELLS) && !Inside(INFO, SCELLS)
    ensures !Inside([], INFO_OFFSETS) && Inside(INFO, INFO_OFFSETS)
    ensures !Inside([], SPS_ELEMENTS) && !Inside(INFO, SPS_ELEMENTS)
  {
    assert INFO_OFFSETS[..1] == [33] && SPS_ELEMENTS[..1] == [6];
    assert [6][0] == 6 && INFO[0] == 33;
  }

  lemma {:induction false} MergeIsHeard(d: Message, s: Message, blocks: seq<Path>, p: Path)
    ensures ListHeard(d, s, Merged(d, s, blocks), p, !Replaced(p, blocks))
  {
    MergedAt(d, s, blocks, p);
    var m := Merged(d, s, blocks);
    assert Items(m, p) != [] <==> p in m.repeated;
  }

  /** A state change of a known UE replaces the cells of its config, and appends to the other lists. */
  lemma {:induction false} ChangeIsHeard(t: Tables, change: Change, config: Message, i: nat)
    requires Lockstep(t) && i < |t.ues| && Rnti(t.ues[i]) == Rnti(config) && (change == Activated || change == Updated)
    ensures var ues := ApplyChange(t, change, config).ues;
      |ues| == |t.ues| && Heard(t.ues[i], config, ues[i], {INFO_OFFSETS, SPS_ELEMENTS})
  {
    RntiIsListed(t, i);
    WhereListsStand();
    MergedSingular(t.ues[i], config, STATE_BLOCKS);
    MergeIsHeard(t.ues[i], config, STATE_BLOCKS, SCELLS);
    MergeIsHeard(t.ues[i], config, STATE_BLOCKS, INFO_OFFSETS);
    MergeIsHeard(t.ues[i], config, STATE_BLOCKS, SPS_ELEMENTS);
    assert STATE_BLOCKS[0] == [];
  }

  /** A config reply also replaces the offsets, and leaves alone every UE that it does not name. */
  lemma {:induction false} ReplyIsHeard(cs: seq<Message>, reply: seq<Message>, i: nat)
    requires Distinct(Rntis(cs)) && Distinct(Rntis(reply)) && i < |cs|
    ensures |ApplyReply(cs, reply)| == |cs|
    ensures forall s | s in reply && Rnti(s) == Rnti(cs[i]) ::
      Heard(cs[i], s, ApplyReply(cs, reply)[i], {SPS_ELEMENTS})
    ensures (forall s | s in reply :: Rnti(s) != Rnti(cs[i])) ==> ApplyReply(cs, reply)[i] == cs[i]
  {
    ReplyAt(cs, reply);
    assert |Rntis(ApplyReply(cs, reply))| == |cs|;
    forall s | s in reply && Rnti(s) == Rnti(cs[i])
      ensures Heard(cs[i], s, ApplyReply(cs, reply)[i], {SPS_ELEMENTS})
    {
      SaidOnce(cs[i], reply, Rnti(cs[i]), s);
      ConfigIsHeard(cs[i], s);
    }
    if forall s | s in reply :: Rnti(s) != Rnti(cs[i]) {
      NeverSaid(cs[i], reply, Rnti(cs[i]));
    }
  }

  lemma {:induction false} ConfigIsHeard(d: Message, s: Message)
    ensures Heard(d, s, Merged(d, s, REPLY_BLOCKS), {SPS_ELEMENTS})
  {
    WhereListsStand();
    MergedSingular(d, s, REPLY_BLOCKS);
    MergeIsHeard(d, s, REPLY_BLOCKS, SCELLS);
    MergeIsHeard(d, s, REPLY_BLOCKS, INFO_OFFSETS);
    MergeIsHeard(d, s, REPLY_BLOCKS, SPS_ELEMENTS);
    assert REPLY_BLOCKS[0] == [] && REPLY_BLOCKS[1] == INFO;
  }
}
