/** What the tables of a base station keep over any run of config replies and UE state changes. */
module UeTableProofs {
  import opened Messages
  import opened Sequences
  import opened UeTables

  ghost predicate Distinct(xs: seq<int>) {
    forall i, j | 0 <= i < j < |xs| :: xs[i] != xs[j]
  }

  /** Everything a reply says of one UE, merged in order. */
  function MergedAll(d: Message, reply: seq<Message>, rnti: int): Message {
    if reply == [] then d
    else
      var m, last := MergedAll(d, reply[..|reply| - 1], rnti), reply[|reply| - 1];
      if Rnti(last) == rnti then Merged(m, last, REPLY_BLOCKS) else m
  }

  lemma {:induction false} MergedKeepsRnti(d: Message, s: Message, blocks: seq<Path>)
    requires Rnti(s) == Rnti(d)
    ensures Rnti(Merged(d, s, blocks)) == Rnti(d)
  {
    MergedSingular(d, s, blocks);
  }

  lemma {:induction false} FirstIndex(xs: seq<int>, i: nat)
    requires i < |xs| && Distinct(xs)
    ensures IndexOf(xs, xs[i]) == i
  {
  }

  /** One config changes nothing but the first UE with its RNTI, and no RNTI. */
  lemma {:induction false} ConfigAt(cs: seq<Message>, src: Message)
    ensures Rntis(ApplyConfig(cs, src)) == Rntis(cs)
    ensures forall i | 0 <= i < |cs| :: ApplyConfig(cs, src)[i] == (
                if i == IndexOf(Rntis(cs), Rnti(src)) then Merged(cs[i], src, REPLY_BLOCKS) else cs[i])
  {
    var i := IndexOf(Rntis(cs), Rnti(src));
    if i < |cs| {
      assert Rntis(cs)[i] == Rnti(cs[i]);
      MergedKeepsRnti(cs[i], src, REPLY_BLOCKS);
    }
  }

  /** A reply never adds, drops, reorders or renames a UE; every other UE hears exactly what is said of it. */
  lemma {:induction false} ReplyAt(cs: seq<Message>, reply: seq<Message>)
    requires Distinct(Rntis(cs))
    ensures Rntis(ApplyReply(cs, reply)) == Rntis(cs)
    ensures forall i | 0 <= i < |cs| :: ApplyReply(cs, reply)[i] == MergedAll(cs[i], reply, Rnti(cs[i]))
  {
    if reply == [] {
    } else {
      var init, last := reply[..|reply| - 1], reply[|reply| - 1];
      ReplyAt(cs, init);
      var mid := ApplyReply(cs, init);
      ConfigAt(mid, last);
      forall i | 0 <= i < |cs| ensures ApplyReply(cs, reply)[i] == MergedAll(cs[i], reply, Rnti(cs[i])) {
        assert Rntis(cs)[i] == Rnti(cs[i]);
        FirstIndex(Rntis(cs), i);
      }
    }
  }

  lemma {:induction false} SaidOnce(d: Message, reply: seq<Message>, rnti: int, s: Message)
    requires Distinct(Rntis(reply)) && s in reply && Rnti(s) == rnti
    ensures MergedAll(d, reply, rnti) == Merged(d, s, REPLY_BLOCKS)
  {
    var init, last := reply[..|reply| - 1], reply[|reply| - 1];
    assert reply == init + [last];
    assert forall k | 0 <= k < |reply| :: Rntis(reply)[k] == Rnti(reply[k]);
    assert forall k | 0 <= k < |init| :: Rntis(init)[k] == Rntis(reply)[k];
    if s in init {
      SaidOnce(d, init, rnti, s);
      var k :| 0 <= k < |init| && init[k] == s;
      assert Rntis(reply)[k] != Rntis(reply)[|reply| - 1];
    } else {
      forall t | t in init ensures Rnti(t) != rnti {
        var k :| 0 <= k < |init| && init[k] == t;
        assert Rntis(reply)[k] != Rntis(reply)[|reply| - 1];
      }
      NeverSaid(d, init, rnti);
    }
  }

  lemma {:induction false} NeverSaid(d: Message, reply: seq<Message>, rnti: int)
    requires forall s | s in reply :: Rnti(s) != rnti
    ensures MergedAll(d, reply, rnti) == d
  {
    if reply == [] {
    } else {
      assert reply[|reply| - 1] in reply;
      NeverSaid(d, reply[..|reply| - 1], rnti);
    }
  }

  /** The order of the configs in a reply does not matter when each UE has at most one. */
  lemma {:induction false} ReplyOrderIsIrrelevant(cs: seq<Message>, r: seq<Message>, r': seq<Message>)
    requires Distinct(Rntis(cs)) && Distinct(Rntis(r)) && Distinct(Rntis(r'))
    requires forall s :: s in r <==> s in r'
    ensures ApplyReply(cs, r) == ApplyReply(cs, r')
  {
    ReplyAt(cs, r);
    ReplyAt(cs, r');
    forall i | 0 <= i < |cs| ensures ApplyReply(cs, r)[i] == ApplyReply(cs, r')[i] {
      var rnti := Rnti(cs[i]);
      if s :| s in r && Rnti(s) == rnti {
        SaidOnce(cs[i], r, rnti, s);
        SaidOnce(cs[i], r', rnti, s);
      } else {
        NeverSaid(cs[i], r, rnti);
        NeverSaid(cs[i], r', rnti);
      }
    }
    assert |Rntis(ApplyReply(cs, r))| == |Rntis(ApplyReply(cs, r'))|;
  }

  /** Overriding in every field, which merging is when all repeated fields are replaced. */
  function Overlay(d: Message, s: Message): Message {
    Fields(d.singular + s.singular, d.repeated + s.repeated)
  }

  lemma {:induction false} FlatMergeIsOverlay(d: Message, s: Message, blocks: seq<Path>)
    requires Flat(s, blocks)
    ensures Merged(d, s, blocks) == Overlay(d, s)
  {
    MergedSingular(d, s, blocks);
    forall p ensures Items(Merged(d, s, blocks), p) == Items(Overlay(d, s), p) {
      MergedAt(d, s, blocks, p);
    }
    SameFields(Merged(d, s, blocks), Overlay(d, s));
  }

  lemma {:induction false} OverlayAssociates(d: Message, a: Message, b: Message)
    ensures Overlay(Overlay(d, a), b) == Overlay(d, Overlay(a, b))
  {
    assert d.singular + a.singular + b.singular == d.singular + (a.singular + b.singular);
    assert d.repeated + a.repeated + b.repeated == d.repeated + (a.repeated + b.repeated);
  }

  function OverlayAll(reply: seq<Message>, rnti: int): Message {
    if reply == [] then Fields(map[], map[])
    else
      var m, last := OverlayAll(reply[..|reply| - 1], rnti), reply[|reply| - 1];
      if Rnti(last) == rnti then Overlay(m, last) else m
  }

  lemma {:induction false} FlatReplyIsOverlay(d: Message, reply: seq<Message>, rnti: int)
    requires forall s | s in reply && Rnti(s) == rnti :: Flat(s, REPLY_BLOCKS)
    ensures MergedAll(d, reply, rnti) == Overlay(d, OverlayAll(reply, rnti))
  {
    if reply == [] {
    } else {
      var init, last := reply[..|reply| - 1], reply[|reply| - 1];
      FlatReplyIsOverlay(d, init, rnti);
      if Rnti(last) == rnti {
        var m := OverlayAll(init, rnti);
        FlatMergeIsOverlay(Overlay(d, m), last, REPLY_BLOCKS);
        OverlayAssociates(d, m, last);
      }
    }
  }

  /** A repeated field that is never replaced grows by everything said of it. */
  lemma {:induction false} NestedListGrows(d: Message, reply: seq<Message>, rnti: int, p: Path)
    requires !Replaced(p, REPLY_BLOCKS)
    ensures |Items(MergedAll(d, reply, rnti), p)| >= |Items(d, p)|
    ensures (exists s | s in reply && Rnti(s) == rnti :: p in s.repeated)
      ==> |Items(MergedAll(d, reply, rnti), p)| > |Items(d, p)|
  {
    if reply == [] {
    } else {
      var init, last := reply[..|reply| - 1], reply[|reply| - 1];
      assert reply == init + [last];
      NestedListGrows(d, init, rnti, p);
      if Rnti(last) == rnti {
        MergedAt(MergedAll(d, init, rnti), last, REPLY_BLOCKS, p);
      }
    }
  }

  lemma {:induction false} OverlayTwice(d: Message, o: Message)
    ensures Overlay(Overlay(d, o), o) == Overlay(d, o)
  {
    assert d.singular + o.singular + o.singular == d.singular + o.singular;
    assert d.repeated + o.repeated + o.repeated == d.repeated + o.repeated;
  }

  ghost predicate AllFlat(reply: seq<Message>, rnti: int) {
    forall s | s in reply && Rnti(s) == rnti :: Flat(s, REPLY_BLOCKS)
  }

  /** Hearing a reply again changes one UE exactly when the reply has a nested list that is not replaced. */
  lemma {:induction false} TwiceIsOnceFor(d: Message, reply: seq<Message>, rnti: int)
    ensures MergedAll(MergedAll(d, reply, rnti), reply, rnti) == MergedAll(d, reply, rnti) <==> AllFlat(reply, rnti)
  {
    if AllFlat(reply, rnti) {
      var o := OverlayAll(reply, rnti);
      FlatReplyIsOverlay(d, reply, rnti);
      FlatReplyIsOverlay(Overlay(d, o), reply, rnti);
      OverlayTwice(d, o);
    } else {
      var s :| s in reply && Rnti(s) == rnti && !Flat(s, REPLY_BLOCKS);
      var p :| p in s.repeated && !Replaced(p, REPLY_BLOCKS);
      NestedListGrows(MergedAll(d, reply, rnti), reply, rnti, p);
    }
  }

  /** Applying a reply twice is applying it once exactly when no list for a known UE escapes replacement. */
  lemma {:induction false} ReplyTwiceIsOnceExactlyWhen(cs: seq<Message>, reply: seq<Message>)
    requires Distinct(Rntis(cs))
    ensures ApplyReply(ApplyReply(cs, reply), reply) == ApplyReply(cs, reply)
       <==> forall s | s in reply && Rnti(s) in Rntis(cs) :: Flat(s, REPLY_BLOCKS)
  {
    var once := ApplyReply(cs, reply);
    var twice := ApplyReply(once, reply);
    ReplyAt(cs, reply);
    ReplyAt(once, reply);
    forall i | 0 <= i < |cs|
      ensures twice[i] == once[i] <==> AllFlat(reply, Rntis(cs)[i])
    {
      assert Rntis(once)[i] == Rntis(cs)[i];
      TwiceIsOnceFor(cs[i], reply, Rnti(cs[i]));
    }
    assert |Rntis(once)| == |Rntis(twice)|;
    if forall s | s in reply && Rnti(s) in Rntis(cs) :: Flat(s, REPLY_BLOCKS) {
      assert forall i | 0 <= i < |cs| :: Rntis(cs)[i] in Rntis(cs);
      assert twice == once;
    }
  }

  /** Of the repeated fields a UE config has, only the list in the SPS config is appended to. */
  lemma {:induction false} OnlySpsElementsAccumulate(s: Message)
    requires IsUeConfig(s)
    ensures Flat(s, REPLY_BLOCKS) <==> SPS_ELEMENTS !in s.repeated
  {
    assert Inside([], SCELLS) && Inside(INFO, INFO_OFFSETS);
    assert REPLY_BLOCKS[0] == [] && REPLY_BLOCKS[1] == INFO;
    assert SPS_ELEMENTS[..1][0] == 6;
    assert !Replaced(SPS_ELEMENTS, REPLY_BLOCKS);
  }

  /** Two occurrences of the same reply with an SPS list leave the list doubled. */
  lemma {:induction false} SpsElementsDouble()
    ensures var ue := Fields(map[RNTI := 70], map[]);
      var s := Fields(map[RNTI := 70, [6] := 0], map[SPS_ELEMENTS := [5]]);
      IsUeConfig(ue) && IsUeConfig(s) && ApplyReply([ue], [s]) != ApplyReply(ApplyReply([ue], [s]), [s])
  {
    var ue: Message := Fields(map[RNTI := 70], map[]);
    var s: Message := Fields(map[RNTI := 70, [6] := 0], map[SPS_ELEMENTS := [5]]);
    OnlySpsElementsAccumulate(s);
    OneUeTwice(ue, s);
  }

  lemma {:induction false} OneUeTwice(ue: Message, s: Message)
    requires Rnti(ue) == Rnti(s) && !Flat(s, REPLY_BLOCKS)
    ensures ApplyReply([ue], [s]) != ApplyReply(ApplyReply([ue], [s]), [s])
  {
    ReplyTwiceIsOnceExactlyWhen([ue], [s]);
    assert Rntis([ue])[0] == Rnti(s) && [s][0] == s;
  }

  /** Each of the replies' configs for known UEs agrees with each of the other's for the same UE. */
  ghost predicate Agree(cs: seq<Message>, a: seq<Message>, b: seq<Message>) {
    forall s, t | s in a && t in b && Rnti(s) == Rnti(t) && Rnti(s) in Rntis(cs) :: Compatible(s, t, REPLY_BLOCKS)
  }

  lemma {:induction false} MergePastReply(d: Message, s: Message, b: seq<Message>, rnti: int)
    requires forall t | t in b && Rnti(t) == rnti :: Compatible(s, t, REPLY_BLOCKS)
    ensures MergedAll(Merged(d, s, REPLY_BLOCKS), b, rnti) == Merged(MergedAll(d, b, rnti), s, REPLY_BLOCKS)
  {
    if b == [] {
    } else {
      var init, last := b[..|b| - 1], b[|b| - 1];
      MergePastReply(d, s, init, rnti);
      if Rnti(last) == rnti {
        MergesCommuteExactlyWhen(MergedAll(d, init, rnti), s, last, REPLY_BLOCKS);
      }
    }
  }

  lemma {:induction false} RepliesCommuteFor(d: Message, a: seq<Message>, b: seq<Message>, rnti: int)
    requires forall s, t | s in a && t in b && Rnti(s) == Rnti(t) == rnti :: Compatible(s, t, REPLY_BLOCKS)
    ensures MergedAll(MergedAll(d, a, rnti), b, rnti) == MergedAll(MergedAll(d, b, rnti), a, rnti)
  {
    if a == [] {
    } else {
      var init, last := a[..|a| - 1], a[|a| - 1];
      RepliesCommuteFor(d, init, b, rnti);
      if Rnti(last) == rnti {
        MergePastReply(MergedAll(d, init, rnti), last, b, rnti);
      }
    }
  }

  /** Replies of split agents that agree where they overlap can arrive in either order. */
  lemma {:induction false} RepliesCommute(cs: seq<Message>, a: seq<Message>, b: seq<Message>)
    requires Distinct(Rntis(cs)) && Agree(cs, a, b)
    ensures ApplyReply(ApplyReply(cs, a), b) == ApplyReply(ApplyReply(cs, b), a)
  {
    var ca, cb := ApplyReply(cs, a), ApplyReply(cs, b);
    ReplyAt(cs, a);
    ReplyAt(ca, b);
    ReplyAt(cs, b);
    ReplyAt(cb, a);
    forall i | 0 <= i < |cs| ensures ApplyReply(ca, b)[i] == ApplyReply(cb, a)[i] {
      var rnti := Rntis(cs)[i];
      assert Rntis(ca)[i] == Rntis(cb)[i] == rnti && rnti in Rntis(cs);
      RepliesCommuteFor(cs[i], a, b, rnti);
    }
    assert |Rntis(ApplyReply(ca, b))| == |Rntis(ApplyReply(cb, a))|;
  }

  /** When each reply names a UE once, agreement is also necessary. */
  lemma {:induction false} RepliesCommuteExactlyWhen(cs: seq<Message>, a: seq<Message>, b: seq<Message>)
    requires Distinct(Rntis(cs)) && Distinct(Rntis(a)) && Distinct(Rntis(b))
    ensures ApplyReply(ApplyReply(cs, a), b) == ApplyReply(ApplyReply(cs, b), a) <==> Agree(cs, a, b)
  {
    if Agree(cs, a, b) {
      RepliesCommute(cs, a, b);
    } else {
      var s, t :| s in a && t in b && Rnti(s) == Rnti(t) && Rnti(s) in Rntis(cs) && !Compatible(s, t, REPLY_BLOCKS);
      var rnti := Rnti(s);
      var i :| 0 <= i < |cs| && Rntis(cs)[i] == rnti;
      var ca, cb := ApplyReply(cs, a), ApplyReply(cs, b);
      ReplyAt(cs, a);
      ReplyAt(cs, b);
      ReplyAt(ca, b);
      ReplyAt(cb, a);
      assert Rntis(ca)[i] == Rntis(cb)[i] == rnti;
      SaidOnce(cs[i], a, rnti, s);
      SaidOnce(ca[i], b, rnti, t);
      SaidOnce(cs[i], b, rnti, t);
      SaidOnce(cb[i], a, rnti, s);
      MergesCommuteExactlyWhen(cs[i], s, t, REPLY_BLOCKS);
    }
  }

  /** A message from an agent that reaches the tables. */
  datatype Event = Reply(configs: seq<Message>) | State(change: Change, config: Message) | Lc(reply: seq<Message>)

  function Next(t: Tables, e: Event): Tables {
    match e
    case Reply(configs) => t.(ues := ApplyReply(t.ues, configs))
    case State(change, config) => ApplyChange(t, change, config)
    case Lc(reply) => if reply == [] then t else t.(lcs := reply)
  }

  function After(es: seq<Event>): Tables {
    if es == [] then Tables([], {}, []) else Next(After(es[..|es| - 1]), es[|es| - 1])
  }

  function RntiSet(t: Tables): set<int> {
    set r | r in Rntis(t.ues)
  }

  /** RNTIs are unique, and exactly they have MAC state. */
  ghost predicate Lockstep(t: Tables) {
    Distinct(Rntis(t.ues)) && RntiSet(t) == t.macs
  }

  lemma {:induction false} WithoutKeepsOthers(t: Tables, i: nat)
    requires i < |t.ues| && Distinct(Rntis(t.ues))
    ensures Distinct(Rntis(Without(t.ues, i)))
    ensures RntiSet(t.(ues := Without(t.ues, i))) == RntiSet(t) - {Rnti(t.ues[i])}
  {
    var xs, ys := Rntis(t.ues), Rntis(Without(t.ues, i));
    assert forall k | 0 <= k < |ys| :: ys[k] == xs[if k < i then k else k + 1];
    forall r ensures r in ys <==> r in xs && r != xs[i] {
      if r in xs && r != xs[i] {
        var k :| 0 <= k < |xs| && xs[k] == r;
        assert ys[if k < i then k else k - 1] == r;
      }
    }
  }

  /** A deactivated UE is gone from all three tables, if the logical channel configs name each UE once. */
  lemma {:induction false} DeactivatedIsForgotten(t: Tables, config: Message)
    requires Lockstep(t) && Rnti(config) in t.macs && Distinct(Rntis(t.lcs))
    ensures var t' := ApplyChange(t, Deactivated, config);
      Rnti(config) !in RntiSet(t') && Rnti(config) !in t'.macs && Rnti(config) !in Rntis(t'.lcs)
  {
    var i := IndexOf(Rntis(t.ues), Rnti(config));
    assert Rntis(t.ues)[i] == Rnti(t.ues[i]);
    WithoutKeepsOthers(t, i);
    var l := IndexOf(Rntis(t.lcs), Rnti(config));
    if l < |t.lcs| {
      assert Rntis(t.lcs)[l] == Rnti(t.lcs[l]);
      WithoutKeepsOthers(t.(ues := t.lcs), l);
    }
  }

  lemma {:induction false} StepKeepsLockstep(t: Tables, e: Event)
    requires Lockstep(t)
    ensures Lockstep(Next(t, e))
  {
    match e
    case Reply(configs) => ReplyAt(t.ues, configs);
    case State(change, config) =>
      var i := IndexOf(Rntis(t.ues), Rnti(config));
      if i == |t.ues| {
        if change == Activated {
          assert Rntis(t.ues + [config]) == Rntis(t.ues) + [Rnti(config)];
        }
      } else {
        assert Rnti(t.ues[i]) == Rnti(config);
        if change == Deactivated {
          WithoutKeepsOthers(t, i);
        } else {
          MergedKeepsRnti(t.ues[i], config, STATE_BLOCKS);
          assert Rntis(t.ues[i := Merged(t.ues[i], config, STATE_BLOCKS)]) == Rntis(t.ues);
        }
      }
    case Lc(_) =>
  }

  lemma {:induction false} EveryRunIsInLockstep(es: seq<Event>)
    ensures Lockstep(After(es))
  {
    if es == [] {
    } else {
      EveryRunIsInLockstep(es[..|es| - 1]);
      StepKeepsLockstep(After(es[..|es| - 1]), es[|es| - 1]);
    }
  }

  /** The last activation or deactivation of this RNTI was an activation. */
  predicate Live(es: seq<Event>, rnti: int) {
    if es == [] then false
    else
      var e, before := es[|es| - 1], Live(es[..|es| - 1], rnti);
      if e.State? && Rnti(e.config) == rnti && e.change == Activated then true
      else if e.State? && Rnti(e.config) == rnti && e.change == Deactivated then false
      else before
  }

  /** What the agents have said of the singular fields of one UE since it was activated. */
  function Said(es: seq<Event>, rnti: int): map<Path, int> {
    if es == [] then map[]
    else
      var e, before, live := es[|es| - 1], Said(es[..|es| - 1], rnti), Live(es[..|es| - 1], rnti);
      match e
      case Reply(configs) => if live then before + SaidIn(configs, rnti) else before
      case State(change, config) =>
        if Rnti(config) != rnti then before
        else if change == Activated then (if live then before else map[]) + config.singular
        else if change == Updated && live then before + config.singular
        else before
      case Lc(_) => before
  }

  function SaidIn(configs: seq<Message>, rnti: int): map<Path, int> {
    if configs == [] then map[]
    else
      var before, last := SaidIn(configs[..|configs| - 1], rnti), configs[|configs| - 1];
      if Rnti(last) == rnti then before + last.singular else before
  }

  /** What the agents have said of one repeated field of the UE since it was activated, lists replaced or appended
      as merging does. */
  function SaidItems(es: seq<Event>, rnti: int, p: Path): seq<int> {
    if es == [] then []
    else
      var e, before, live := es[|es| - 1], SaidItems(es[..|es| - 1], rnti, p), Live(es[..|es| - 1], rnti);
      match e
      case Reply(configs) => if live then ItemsAfter(before, configs, rnti, p) else before
      case State(change, config) =>
        if Rnti(config) != rnti then before
        else if change == Activated && !live then Items(config, p)
        else if (change == Activated || change == Updated) && live then Put(before, config, STATE_BLOCKS, p)
        else before
      case Lc(_) => before
  }

  function ItemsAfter(items: seq<int>, configs: seq<Message>, rnti: int, p: Path): seq<int> {
    if configs == [] then items
    else
      var before, last := ItemsAfter(items, configs[..|configs| - 1], rnti, p), configs[|configs| - 1];
      if Rnti(last) == rnti then Put(before, last, REPLY_BLOCKS, p) else before
  }

  lemma {:induction false} MergedAllItems(d: Message, configs: seq<Message>, rnti: int, p: Path)
    ensures Items(MergedAll(d, configs, rnti), p) == ItemsAfter(Items(d, p), configs, rnti, p)
  {
    if configs == [] {
    } else {
      var init, last := configs[..|configs| - 1], configs[|configs| - 1];
      MergedAllItems(d, init, rnti, p);
      if Rnti(last) == rnti {
        MergedAt(MergedAll(d, init, rnti), last, REPLY_BLOCKS, p);
      }
    }
  }

  lemma {:induction false} OverrideAssociates(d: map<Path, int>, a: map<Path, int>, b: map<Path, int>)
    ensures (d + a) + b == d + (a + b)
  {
  }

  lemma {:induction false} MergedAllSingular(d: Message, configs: seq<Message>, rnti: int)
    ensures MergedAll(d, configs, rnti).singular == d.singular + SaidIn(configs, rnti)
  {
    if configs == [] {
      assert d.singular + map[] == d.singular;
    } else {
      var init, last := configs[..|configs| - 1], configs[|configs| - 1];
      MergedAllSingular(d, init, rnti);
      if Rnti(last) == rnti {
        MergedSingular(MergedAll(d, init, rnti), last, REPLY_BLOCKS);
        OverrideAssociates(d.singular, SaidIn(init, rnti), last.singular);
      }
    }
  }

  /** The config of a UE holds exactly what was said of it. */
  ghost predicate HoldsSaid(es: seq<Event>, ue: Message) {
    ue.singular == Said(es, Rnti(ue)) && forall p :: Items(ue, p) == SaidItems(es, Rnti(ue), p)
  }

  /** A UE is known while its last activation stands, and is described by all that was said since. */
  ghost predicate Faithful(es: seq<Event>, t: Tables) {
    && Lockstep(t)
    && (forall r :: r in t.macs <==> Live(es, r))
    && forall i | 0 <= i < |t.ues| :: HoldsSaid(es, t.ues[i])
  }

  lemma {:induction false} ReplyAtUe(es: seq<Event>, ue: Message, configs: seq<Message>)
    requires HoldsSaid(es, ue) && Live(es, Rnti(ue))
    requires Rnti(MergedAll(ue, configs, Rnti(ue))) == Rnti(ue)
    ensures HoldsSaid(es + [Reply(configs)], MergedAll(ue, configs, Rnti(ue)))
  {
    var es', r := es + [Reply(configs)], Rnti(ue);
    assert es'[..|es|] == es && es'[|es|] == Reply(configs);
    MergedAllSingular(ue, configs, r);
    forall p ensures Items(MergedAll(ue, configs, r), p) == SaidItems(es', r, p) {
      MergedAllItems(ue, configs, r, p);
    }
  }

  lemma {:induction false} ReplyKeepsFaithful(es: seq<Event>, t: Tables, configs: seq<Message>)
    requires Faithful(es, t)
    ensures Faithful(es + [Reply(configs)], Next(t, Reply(configs)))
  {
    var es', t' := es + [Reply(configs)], Next(t, Reply(configs));
    assert es'[..|es|] == es;
    StepKeepsLockstep(t, Reply(configs));
    ReplyAt(t.ues, configs);
    forall i | 0 <= i < |t'.ues| ensures HoldsSaid(es', t'.ues[i]) {
      var r := Rntis(t.ues)[i];
      assert Rntis(t'.ues)[i] == r && r in RntiSet(t);
      ReplyAtUe(es, t.ues[i], configs);
    }
  }

  lemma {:induction false} ChangeAt(es: seq<Event>, change: Change, config: Message, r: int)
    ensures Live(es + [State(change, config)], r) == (
              if Rnti(config) != r then Live(es, r)
              else change == Activated || (change != Deactivated && Live(es, r)))
    ensures Said(es + [State(change, config)], r) == (
              if Rnti(config) != r then Said(es, r)
              else if change == Activated then (if Live(es, r) then Said(es, r) else map[]) + config.singular
              else if change == Updated && Live(es, r) then Said(es, r) + config.singular
              else Said(es, r))
  {
    var es' := es + [State(change, config)];
    assert es'[..|es|] == es && es'[|es|] == State(change, config);
  }

  lemma {:induction false} ChangeAtItems(es: seq<Event>, change: Change, config: Message, r: int, p: Path)
    ensures SaidItems(es + [State(change, config)], r, p) == (
              if Rnti(config) != r then SaidItems(es, r, p)
              else if change == Activated && !Live(es, r) then Items(config, p)
              else if (change == Activated || change == Updated) && Live(es, r) then
                Put(SaidItems(es, r, p), config, STATE_BLOCKS, p)
              else SaidItems(es, r, p))
  {
    var es' := es + [State(change, config)];
    assert es'[..|es|] == es && es'[|es|] == State(change, config);
  }

  lemma {:induction false} RntiIsListed(t: Tables, i: nat)
    requires i < |t.ues| && Distinct(Rntis(t.ues))
    ensures Rnti(t.ues[i]) in RntiSet(t) && IndexOf(Rntis(t.ues), Rnti(t.ues[i])) == i
  {
    assert Rntis(t.ues)[i] in Rntis(t.ues);
    FirstIndex(Rntis(t.ues), i);
  }

  /** The entry of the UE, and what was said of it, after the config is merged into it. */
  lemma {:induction false} MergedUeIsFaithful(es: seq<Event>, ue: Message, change: Change, config: Message)
    requires change == Activated || change == Updated
    requires Rnti(ue) == Rnti(config) && HoldsSaid(es, ue) && Live(es, Rnti(ue))
    ensures HoldsSaid(es + [State(change, config)], Merged(ue, config, STATE_BLOCKS))
  {
    ChangeAt(es, change, config, Rnti(ue));
    MergedSingular(ue, config, STATE_BLOCKS);
    MergedKeepsRnti(ue, config, STATE_BLOCKS);
    forall p ensures Items(Merged(ue, config, STATE_BLOCKS), p)
                  == SaidItems(es + [State(change, config)], Rnti(ue), p) {
      ChangeAtItems(es, change, config, Rnti(ue), p);
      MergedAt(ue, config, STATE_BLOCKS, p);
    }
  }

  /** Nothing changes for another UE than the one that the change is about. */
  lemma {:induction false} OtherUeIsFaithful(es: seq<Event>, ue: Message, change: Change, config: Message)
    requires HoldsSaid(es, ue) && (Rnti(ue) != Rnti(config) || change == OtherChange)
    ensures HoldsSaid(es + [State(change, config)], ue)
  {
    ChangeAt(es, change, config, Rnti(ue));
    forall p ensures Items(ue, p) == SaidItems(es + [State(change, config)], Rnti(ue), p) {
      ChangeAtItems(es, change, config, Rnti(ue), p);
    }
  }

  lemma {:induction false} NewUeIsFaithful(es: seq<Event>, config: Message)
    requires !Live(es, Rnti(config))
    ensures HoldsSaid(es + [State(Activated, config)], config)
  {
    ChangeAt(es, Activated, config, Rnti(config));
    assert map[] + config.singular == config.singular;
    forall p ensures Items(config, p) == SaidItems(es + [State(Activated, config)], Rnti(config), p) {
      ChangeAtItems(es, Activated, config, Rnti(config), p);
    }
  }

  /** RNTIs other than that of the entry at `i`. */
  lemma {:induction false} OtherRntis(t: Tables, config: Message, i: nat, k: nat)
    requires Distinct(Rntis(t.ues)) && i == IndexOf(Rntis(t.ues), Rnti(config)) && k < |t.ues| && k != i
    ensures Rnti(t.ues[k]) != Rnti(config)
  {
    RntiIsListed(t, k);
  }

  /** The UE at position `k` after a change still holds what was said of it. */
  lemma {:induction false} ChangeKeepsUe(es: seq<Event>, t: Tables, change: Change, config: Message, k: nat)
    requires Faithful(es, t) && k < |ApplyChange(t, change, config).ues|
    ensures HoldsSaid(es + [State(change, config)], ApplyChange(t, change, config).ues[k])
  {
    var i := IndexOf(Rntis(t.ues), Rnti(config));
    var j := if change == Deactivated && k >= i then k + 1 else k;
    if k == |t.ues| {
      assert Rnti(config) !in RntiSet(t);
      NewUeIsFaithful(es, config);
    } else if j != i || change == OtherChange {
      if j != i {
        OtherRntis(t, config, i, j);
      }
      OtherUeIsFaithful(es, t.ues[j], change, config);
    } else {
      RntiIsListed(t, i);
      MergedUeIsFaithful(es, t.ues[i], change, config);
    }
  }

  lemma {:induction false} ChangeKeepsFaithful(es: seq<Event>, t: Tables, change: Change, config: Message)
    requires Faithful(es, t)
    ensures Faithful(es + [State(change, config)], ApplyChange(t, change, config))
  {
    var es', t' := es + [State(change, config)], ApplyChange(t, change, config);
    StepKeepsLockstep(t, State(change, config));
    var i := IndexOf(Rntis(t.ues), Rnti(config));
    assert i < |t.ues| <==> Rnti(config) in RntiSet(t);
    forall r ensures r in t'.macs <==> Live(es', r) {
      ChangeAt(es, change, config, r);
    }
    forall k | 0 <= k < |t'.ues| ensures HoldsSaid(es', t'.ues[k]) {
      ChangeKeepsUe(es, t, change, config, k);
    }
  }

  lemma {:induction false} LcKeepsFaithful(es: seq<Event>, t: Tables, reply: seq<Message>)
    requires Faithful(es, t)
    ensures Faithful(es + [Lc(reply)], Next(t, Lc(reply)))
  {
    var es' := es + [Lc(reply)];
    assert es'[..|es|] == es;
    assert forall r :: Live(es', r) == Live(es, r) && Said(es', r) == Said(es, r);
    assert forall r, p :: SaidItems(es', r, p) == SaidItems(es, r, p);
  }

  lemma {:induction false} StepKeepsFaithful(es: seq<Event>, t: Tables, e: Event)
    requires Faithful(es, t)
    ensures Faithful(es + [e], Next(t, e))
  {
    match e
    case Reply(configs) => ReplyKeepsFaithful(es, t, configs);
    case State(change, config) => ChangeKeepsFaithful(es, t, change, config);
    case Lc(reply) => LcKeepsFaithful(es, t, reply);
  }

  lemma {:induction false} EveryRunIsFaithful(es: seq<Event>)
    ensures Faithful(es, After(es))
  {
    if es == [] {
    } else {
      var init, e := es[..|es| - 1], es[|es| - 1];
      assert init + [e] == es;
      EveryRunIsFaithful(init);
      StepKeepsFaithful(init, After(init), e);
    }
  }
}
