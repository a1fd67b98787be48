/** What stands where in a recording, said without the functions that write it. */
module RecordingLayout {
  import opened Bits
  import opened Bytes
  import opened Recorder
  import opened Streams

  /** The parts of a file, one after the other. */
  function Joined(parts: seq<seq<Byte>>): seq<Byte> {
    if parts == [] then [] else parts[0] + Joined(parts[1..])
  }

  /** The bytes of a word of the machine, lowest first. */
  ghost predicate IsWord(bs: seq<Byte>, w: nat, n: nat) {
    |bs| == w && forall k | 0 <= k < w :: bs[k] == n / Pow256(k) % 256
  }

  /** Eight bytes that hold a length, and that many bytes of the message. */
  ghost predicate IsMessage(c: Codec, length: seq<Byte>, body: seq<Byte>, m: Proto) {
    IsWord(length, 8, |body|) && body == c.ser(m)
  }

  /** Eight bytes in which times before the epoch are counted down from 2^64. */
  ghost predicate IsTime(bs: seq<Byte>, t: I64) {
    IsWord(bs, 8, if t < 0 then 0x1_0000_0000_0000_0000 + t else t)
  }

  /** A UE: its statistics, and a byte in which bit `k` is the flag of process `k`. */
  ghost predicate IsUe(c: Codec, parts: seq<seq<Byte>>, u: UeDump) {
    && |parts| == 3 && IsMessage(c, parts[0], parts[1], u.stats)
    && |parts[2]| == 1 && forall k: nat | k < 8 :: Bit(parts[2][0], k) <==> u.harq[k]
  }

  /** The parts of a base station before its UEs: id, time, three messages, and the count of the UEs. */
  ghost predicate IsHead(c: Codec, parts: seq<seq<Byte>>, e: Entry) {
    && |parts| == 9
    && IsWord(parts[0], 8, e.id) && IsTime(parts[1], e.bs.time)
    && IsMessage(c, parts[2], parts[3], e.bs.enbConfig)
    && IsMessage(c, parts[4], parts[5], e.bs.ueConfig)
    && IsMessage(c, parts[6], parts[7], e.bs.lcConfig)
    && IsWord(parts[8], 2, |e.bs.ues|)
  }

  lemma {:induction false} WordIs(n: nat, w: nat)
    ensures IsWord(Little(n, w), w, n)
  {
    forall k | 0 <= k < w
      ensures Little(n, w)[k] == n / Pow256(k) % 256
    {
      LittleAt(n, w, k);
    }
  }

  lemma {:induction false} TimeIs(t: I64)
    ensures IsTime(Little(TimeWord(t), 8), t)
  {
    WordIs(TimeWord(t), 8);
  }

  lemma {:induction false} JoinedOne(a: seq<Byte>, parts: seq<seq<Byte>>)
    ensures Joined([a] + parts) == a + Joined(parts)
  {
    assert ([a] + parts)[1..] == parts;
  }

  lemma {:induction false} JoinedTwo(a: seq<Byte>, b: seq<Byte>)
    ensures Joined([a, b]) == a + b
  {
    JoinedOne(b, []);
    JoinedOne(a, [b]);
    assert [a] + [b] == [a, b] && [b] + [] == [b];
  }

  lemma {:induction false} JoinedBoth(a: seq<seq<Byte>>, b: seq<seq<Byte>>)
    ensures Joined(a + b) == Joined(a) + Joined(b)
  {
    if a == [] {
      assert a + b == b;
    } else {
      JoinedBoth(a[1..], b);
      assert (a + b)[1..] == a[1..] + b;
      Regroup(a[0], Joined(a[1..]), Joined(b));
    }
  }

  /** The parts of a UE. */
  lemma {:induction false} UeLayout(c: Codec, u: UeDump) returns (parts: seq<seq<Byte>>)
    ensures UeBytes(c, u) == Joined(parts) && IsUe(c, parts, u)
  {
    var length, body, flags := Little(|c.ser(u.stats)|, 8), c.ser(u.stats), [HarqByte(u.harq)];
    parts := [length, body, flags];
    WordIs(|body|, 8);
    forall k: nat | k < 8
      ensures Bit(flags[0], k) <==> u.harq[k]
    {
      PackedBits(u.harq, HARQ_PIDS, k);
    }
    JoinedTwo(body, flags);
    JoinedOne(length, [body, flags]);
    assert [length] + [body, flags] == parts;
    Regroup(length, body, flags);
  }

  /** The parts of a base station, and of each of its UEs in their order. */
  ghost predicate IsLaidOut(c: Codec, head: seq<seq<Byte>>, ues: seq<seq<seq<Byte>>>, e: Entry) {
    && IsHead(c, head, e)
    && |ues| == |e.bs.ues| && forall i | 0 <= i < |ues| :: IsUe(c, ues[i], e.bs.ues[i])
  }

  function JoinedAll(partss: seq<seq<seq<Byte>>>): seq<Byte> {
    if partss == [] then [] else Joined(partss[0]) + JoinedAll(partss[1..])
  }

  lemma {:induction false} UesLayout(c: Codec, us: seq<UeDump>) returns (ues: seq<seq<seq<Byte>>>)
    ensures ListBytes(UeWriter(c), us) == JoinedAll(ues)
    ensures |ues| == |us| && forall i | 0 <= i < |ues| :: IsUe(c, ues[i], us[i])
  {
    if us == [] {
      ues := [];
    } else {
      var first := UeLayout(c, us[0]);
      var rest := UesLayout(c, us[1..]);
      ues := [first] + rest;
      assert ues[1..] == rest;
    }
  }

  lemma {:induction false} HeadLayout(c: Codec, e: Entry) returns (head: seq<seq<Byte>>)
    ensures IsHead(c, head, e)
    ensures Joined(head) == Joined(head[..2]) + (Joined(head[2..8]) + head[8])
    ensures Joined(head[..2]) == Little(e.id, 8) + Little(TimeWord(e.bs.time), 8)
    ensures Joined(head[2..8]) == ConfigsBytes(c, e.bs.enbConfig, e.bs.ueConfig, e.bs.lcConfig)
    ensures head[8] == Little(|e.bs.ues|, 2)
  {
    var id, time, n := Little(e.id, 8), Little(TimeWord(e.bs.time), 8), Little(|e.bs.ues|, 2);
    var configs := ConfigsLayout(c, e.bs.enbConfig, e.bs.ueConfig, e.bs.lcConfig);
    head := [id, time] + configs + [n];
    assert head[..2] == [id, time] && head[2..8] == configs && head[8..] == [n];
    WordIs(e.id, 8);
    TimeIs(e.bs.time);
    WordIs(|e.bs.ues|, 2);
    JoinedTwo(id, time);
    JoinedOne(n, []);
    assert [n] + [] == [n];
    JoinedBoth(configs, [n]);
    JoinedBoth([id, time], configs + [n]);
    assert [id, time] + (configs + [n]) == head;
  }

  lemma {:induction false} ConfigsLayout(c: Codec, enb: Proto, ue: Proto, lc: Proto)
    returns (parts: seq<seq<Byte>>)
    ensures Joined(parts) == ConfigsBytes(c, enb, ue, lc) && |parts| == 6
    ensures IsMessage(c, parts[0], parts[1], enb)
    ensures IsMessage(c, parts[2], parts[3], ue)
    ensures IsMessage(c, parts[4], parts[5], lc)
  {
    var a, b, d := Pair(c, enb), Pair(c, ue), Pair(c, lc);
    WordIs(|c.ser(enb)|, 8);
    WordIs(|c.ser(ue)|, 8);
    WordIs(|c.ser(lc)|, 8);
    parts := a + b + d;
    JoinedTwo(a[0], a[1]);
    JoinedTwo(b[0], b[1]);
    JoinedTwo(d[0], d[1]);
    JoinedBoth(b, d);
    JoinedBoth(a, b + d);
    assert a + (b + d) == parts;
  }

  function Pair(c: Codec, m: Proto): seq<seq<Byte>> {
    [Little(|c.ser(m)|, 8), c.ser(m)]
  }

  /** What is written of a base station: its parts in this order, and its UEs. */
  lemma {:induction false} EntryLayout(c: Codec, e: Entry) returns (head: seq<seq<Byte>>, ues: seq<seq<seq<Byte>>>)
    ensures EntryBytes(c, e) == Joined(head) + JoinedAll(ues) && IsLaidOut(c, head, ues, e)
  {
    head := HeadLayout(c, e);
    ues := UesLayout(c, e.bs.ues);
    var id, time, n := Little(e.id, 8), Little(TimeWord(e.bs.time), 8), Little(|e.bs.ues|, 2);
    var configs := ConfigsBytes(c, e.bs.enbConfig, e.bs.ueConfig, e.bs.lcConfig);
    Regrouped(id, time, configs, n, JoinedAll(ues));
  }

  lemma {:induction false} Regrouped(a: seq<Byte>, b: seq<Byte>, c: seq<Byte>, d: seq<Byte>, e: seq<Byte>)
    ensures a + (b + (c + (d + e))) == ((a + b) + (c + d)) + e
  {
  }

  /** A recording: eight bytes for the number of ticks, and per tick two bytes for its base stations and these. */
  lemma {:induction false} DumpLayout(c: Codec, walks: seq<seq<Entry>>) returns (ticks: seq<seq<seq<Byte>>>)
    ensures DumpBytes(c, walks) == Little(|walks|, 8) + JoinedAll(ticks) && IsWord(Little(|walks|, 8), 8, |walks|)
    ensures |ticks| == |walks| && forall i | 0 <= i < |walks| :: IsTick(c, ticks[i], walks[i])
  {
    WordIs(|walks|, 8);
    ticks := TicksLayout(c, walks);
  }

  ghost predicate IsTick(c: Codec, parts: seq<seq<Byte>>, es: seq<Entry>) {
    && |parts| == |es| + 1 && IsWord(parts[0], 2, |es|)
    && forall i | 0 <= i < |es| :: parts[i + 1] == EntryBytes(c, es[i])
  }

  lemma {:induction false} TicksLayout(c: Codec, walks: seq<seq<Entry>>) returns (ticks: seq<seq<seq<Byte>>>)
    ensures ListBytes(WalkWriter(c), walks) == JoinedAll(ticks)
    ensures |ticks| == |walks| && forall i | 0 <= i < |walks| :: IsTick(c, ticks[i], walks[i])
  {
    if walks == [] {
      ticks := [];
    } else {
      var entries := EntriesLayout(c, walks[0]);
      var rest := TicksLayout(c, walks[1..]);
      var first := [Little(|walks[0]|, 2)] + entries;
      JoinedOne(Little(|walks[0]|, 2), entries);
      WordIs(|walks[0]|, 2);
      ticks := [first] + rest;
      assert ticks[1..] == rest;
    }
  }

  lemma {:induction false} EntriesLayout(c: Codec, es: seq<Entry>) returns (parts: seq<seq<Byte>>)
    ensures Joined(parts) == ListBytes(EntryWriter(c), es)
    ensures |parts| == |es| && forall i | 0 <= i < |es| :: parts[i] == EntryBytes(c, es[i])
  {
    if es == [] {
      parts := [];
    } else {
      var rest := EntriesLayout(c, es[1..]);
      parts := [EntryBytes(c, es[0])] + rest;
      JoinedOne(EntryBytes(c, es[0]), rest);
    }
  }

  // ---------- reading a tick ----------

  /** A base station that comes more than once is taken from where it comes first. */
  lemma {:induction false} FirstIsKept(es: seq<Entry>, i: nat)
    requires i < |es| && forall j | 0 <= j < i :: es[j].id != es[i].id
    ensures es[i].id in Gathered(es) && Gathered(es)[es[i].id] == es[i].bs
  {
    var init, last := es[..|es| - 1], es[|es| - 1];
    if i < |init| {
      FirstIsKept(init, i);
    } else {
      NothingElse(init, last.id);
    }
  }

  /** What does not come is not there. */
  lemma {:induction false} NothingElse(es: seq<Entry>, id: U64)
    requires forall e | e in es :: e.id != id
    ensures id !in Gathered(es)
  {
    if es == [] {
    } else {
      assert es[|es| - 1] in es;
      NothingElse(es[..|es| - 1], id);
    }
  }
}
