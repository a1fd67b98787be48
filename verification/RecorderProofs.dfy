/** What is recorded is what is read back, exactly while the counts fit their fields. */
module RecorderProofs {
  import opened Bytes
  import opened Recorder
  import opened Streams

  lemma {:induction false} ProtoReturns(c: Codec, m: Proto, rest: seq<Byte>)
    requires Survives(c, m)
    ensures ReadProto(c, ProtoBytes(c, m) + rest) == Read(m, rest)
  {
    WordSizes();
    var body := c.ser(m);
    Regroup(Little(|body|, 8), body, rest);
    WordReturns(|body|, 8, body + rest);
    assert (body + rest)[..|body|] == body && (body + rest)[|body|..] == rest;
  }

  lemma {:induction false} ByteReturns(b: Byte, rest: seq<Byte>)
    ensures ReadWord(1, [b] + rest) == Read(b, rest)
  {
    assert ([b] + rest)[..1] == [b] && ([b] + rest)[1..] == rest;
    assert FromLittle([b][1..]) == 0;
  }

  lemma {:induction false} UeReturns(c: Codec, u: UeDump)
    requires Survives(c, u.stats)
    ensures Returns(UeWriter(c), UeReader(c), u, u)
  {
    forall rest ensures ReadUe(c, UeBytes(c, u) + rest) == Read(u, rest) {
      var b := HarqByte(u.harq);
      Regroup(ProtoBytes(c, u.stats), [b], rest);
      ProtoReturns(c, u.stats, [b] + rest);
      ByteReturns(b, rest);
      HarqRoundTrip(u.harq);
    }
  }

  /** A counted list returns when its elements do and its length fits 16 bits. */
  lemma {:induction false} CountedReturn<T>(enc: T -> seq<Byte>, one: seq<Byte> -> Read<T>, xs: seq<T>, rest: seq<Byte>)
    requires |xs| < TWO_16 && forall x | x in xs :: Returns(enc, one, x, x)
    ensures ReadCounted(one, CountedBytes(enc, xs) + rest) == Read(xs, rest)
  {
    WordSizes();
    Regroup(Little(|xs|, 2), ListBytes(enc, xs), rest);
    WordReturns(|xs|, 2, ListBytes(enc, xs) + rest);
    ManyReturn(enc, one, xs, xs, rest);
  }

  lemma {:induction false} U64Returns(n: U64, rest: seq<Byte>)
    ensures ReadU64(Little(n, 8) + rest) == Read(n, rest)
  {
    WordSizes();
    WordReturns(n, 8, rest);
  }

  lemma {:induction false} ConfigsReturn(c: Codec, enb: Proto, ue: Proto, lc: Proto, rest: seq<Byte>)
    requires Survives(c, enb) && Survives(c, ue) && Survives(c, lc)
    ensures ReadConfigs(c, ConfigsBytes(c, enb, ue, lc) + rest) == Read((enb, ue, lc), rest)
  {
    var last := ProtoBytes(c, lc) + rest;
    var later := ProtoBytes(c, ue) + last;
    Regroup(ProtoBytes(c, enb), ProtoBytes(c, ue) + ProtoBytes(c, lc), rest);
    Regroup(ProtoBytes(c, ue), ProtoBytes(c, lc), rest);
    ProtoReturns(c, enb, later);
    ProtoReturns(c, ue, last);
    ProtoReturns(c, lc, rest);
  }

  lemma {:induction false} EntryBytesSplit(c: Codec, e: Entry, configs: seq<Byte>, ues: seq<Byte>, rest: seq<Byte>)
    requires configs == ConfigsBytes(c, e.bs.enbConfig, e.bs.ueConfig, e.bs.lcConfig)
    requires ues == CountedBytes(UeWriter(c), e.bs.ues)
    ensures EntryBytes(c, e) + rest == Little(e.id, 8) + (Little(TimeWord(e.bs.time), 8) + (configs + (ues + rest)))
  {
    var time := Little(TimeWord(e.bs.time), 8);
    Regroup(Little(e.id, 8), time + (configs + ues), rest);
    Regroup(time, configs + ues, rest);
    Regroup(configs, ues, rest);
  }

  lemma {:induction false} ReadEntryOf(c: Codec, id: U64, time: U64, b: BsDump, bs: seq<Byte>, r1: seq<Byte>,
                                       r2: seq<Byte>, r3: seq<Byte>, rest: seq<Byte>)
    requires ReadU64(bs) == Read(id, r1) && ReadU64(r1) == Read(time, r2)
    requires ReadConfigs(c, r2) == Read((b.enbConfig, b.ueConfig, b.lcConfig), r3)
    requires ReadCounted(UeReader(c), r3) == Read(b.ues, rest)
    requires WordTime(time) == b.time
    ensures ReadEntry(c, bs) == Read(Entry(id, b), rest)
  {
  }

  lemma {:induction false} EntryReturns(c: Codec, e: Entry)
    requires EntrySurvives(c, e.bs) && |e.bs.ues| < TWO_16
    ensures Returns(EntryWriter(c), EntryReader(c), e, e)
  {
    var b := e.bs;
    var time := TimeWord(b.time);
    var configs := ConfigsBytes(c, b.enbConfig, b.ueConfig, b.lcConfig);
    var ues := CountedBytes(UeWriter(c), b.ues);
    forall u | u in b.ues ensures Returns(UeWriter(c), UeReader(c), u, u) {
      UeReturns(c, u);
    }
    forall rest ensures EntryReader(c)(EntryWriter(c)(e) + rest) == Read(e, rest) {
      var r3 := ues + rest;
      var r2 := configs + r3;
      var r1 := Little(time, 8) + r2;
      EntryBytesSplit(c, e, configs, ues, rest);
      U64Returns(e.id, r1);
      U64Returns(time, r2);
      ConfigsReturn(c, b.enbConfig, b.ueConfig, b.lcConfig, r3);
      CountedReturn(UeWriter(c), UeReader(c), b.ues, rest);
      ReadEntryOf(c, e.id, time, b, EntryBytes(c, e) + rest, r1, r2, r3, rest);
    }
  }

  /** Gathering entries of a map that do not repeat gives that part of the map. */
  lemma {:induction false} GatheredPart(m: Chunk, es: seq<Entry>)
    requires forall e | e in es :: e.id in m && m[e.id] == e.bs
    ensures forall id | id in Gathered(es) :: id in m && Gathered(es)[id] == m[id]
    ensures forall e | e in es :: e.id in Gathered(es)
  {
    if es == [] {
    } else {
      GatheredPart(m, es[..|es| - 1]);
      assert es == es[..|es| - 1] + [es[|es| - 1]];
    }
  }

  /** A map is what its walk gathers. */
  lemma {:induction false} WalkGathers(m: Chunk, es: seq<Entry>)
    requires IsWalk(m, es)
    ensures Gathered(es) == m
  {
    GatheredPart(m, es);
    forall id | id in m ensures id in Gathered(es) {
      assert Entry(id, m[id]) in es;
    }
  }

  ghost predicate ChunkFits(m: Chunk) {
    |m| < TWO_16 && forall id | id in m :: |m[id].ues| < TWO_16
  }

  lemma {:induction false} ChunkReturns(c: Codec, m: Chunk, es: seq<Entry>)
    requires ChunkSurvives(c, m) && IsWalk(m, es) && ChunkFits(m)
    ensures Returns(WalkWriter(c), ChunkReader(c), es, m)
  {
    forall e | e in es { EntryReturns(c, e); }
    WalkGathers(m, es);
    forall rest ensures ReadChunk(c, CountedBytes(EntryWriter(c), es) + rest) == Read(m, rest) {
      CountedReturn(EntryWriter(c), EntryReader(c), es, rest);
    }
  }

  // ---------- nothing larger can come back ----------

  lemma {:induction false} CountedSize<T>(one: seq<Byte> -> Read<T>, bs: seq<Byte>)
    requires ReadCounted(one, bs).Read?
    ensures var xs := ReadCounted(one, bs).value;
      |xs| < TWO_16 && forall x | x in xs :: exists at :: one(at).Read? && one(at).value == x
  {
    WordSizes();
    FromLittleBound(bs[..2]);
    var r := ReadCounted(one, bs);
    ManyAre(one, FromLittle(bs[..2]), bs[2..], r.value, r.rest);
  }

  lemma {:induction false} EntrySize(c: Codec, bs: seq<Byte>)
    requires ReadEntry(c, bs).Read?
    ensures |ReadEntry(c, bs).value.bs.ues| < TWO_16
  {
    var time := ReadU64(bs).rest;
    var configs := ReadU64(time).rest;
    CountedSize(UeReader(c), ReadConfigs(c, configs).rest);
  }

  lemma {:induction false} GatheredFits(es: seq<Entry>)
    requires forall e | e in es :: |e.bs.ues| < TWO_16
    ensures |Gathered(es)| <= |es| && forall id | id in Gathered(es) :: |Gathered(es)[id].ues| < TWO_16
  {
    if es == [] {
    } else {
      assert es[|es| - 1] in es;
      GatheredFits(es[..|es| - 1]);
    }
  }

  lemma {:induction false} ChunkSize(c: Codec, bs: seq<Byte>)
    requires ReadChunk(c, bs).Read?
    ensures ChunkFits(ReadChunk(c, bs).value)
  {
    var es := ReadCounted(EntryReader(c), bs).value;
    CountedSize(EntryReader(c), bs);
    forall e | e in es ensures |e.bs.ues| < TWO_16 {
      var at :| EntryReader(c)(at).Read? && EntryReader(c)(at).value == e;
      EntrySize(c, at);
    }
    GatheredFits(es);
  }

  /** Every count of a recording fits its field. */
  ghost predicate Fits(v: seq<Chunk>) {
    |v| < TWO_64 && forall m | m in v :: ChunkFits(m)
  }

  lemma {:induction false} WhatIsReadFits(c: Codec, bs: seq<Byte>)
    requires ReadDump(c, bs).Read?
    ensures Fits(ReadDump(c, bs).value)
  {
    WordSizes();
    FromLittleBound(bs[..8]);
    var r := ReadDump(c, bs);
    ManyAre(ChunkReader(c), FromLittle(bs[..8]), bs[8..], r.value, r.rest);
    forall m | m in r.value ensures ChunkFits(m) {
      var at :| ChunkReader(c)(at).Read? && ChunkReader(c)(at).value == m;
      ChunkSize(c, at);
    }
  }

  lemma {:induction false} WalksReturn(c: Codec, v: seq<Chunk>, walks: seq<seq<Entry>>, rest: seq<Byte>)
    requires RecordingSurvives(c, v) && AreWalks(v, walks) && Fits(v)
    ensures ReadMany(ChunkReader(c), |v|, ListBytes(WalkWriter(c), walks) + rest) == Read(v, rest)
  {
    forall i | 0 <= i < |v| ensures Returns(WalkWriter(c), ChunkReader(c), walks[i], v[i]) {
      ChunkReturns(c, v[i], walks[i]);
    }
    ManyReturn(WalkWriter(c), ChunkReader(c), walks, v, rest);
  }

  lemma {:induction false} DumpBytesSplit(c: Codec, walks: seq<seq<Entry>>, rest: seq<Byte>)
    requires |walks| < TWO_64
    ensures DumpBytes(c, walks) + rest == Little(|walks|, 8) + (ListBytes(WalkWriter(c), walks) + rest)
  {
    Regroup(Little(|walks|, 8), ListBytes(WalkWriter(c), walks), rest);
  }

  lemma {:induction false} ReadDumpOf(c: Codec, bs: seq<Byte>, n: nat, rest: seq<Byte>)
    requires ReadWord(8, bs) == Read(n, rest)
    ensures ReadDump(c, bs) == ReadMany(ChunkReader(c), n, rest)
  {
  }

  lemma {:induction false} FittingRecordingReturns(c: Codec, v: seq<Chunk>, walks: seq<seq<Entry>>, rest: seq<Byte>)
    requires RecordingSurvives(c, v) && AreWalks(v, walks) && Fits(v)
    ensures ReadDump(c, DumpBytes(c, walks) + rest) == Read(v, rest)
  {
    WordSizes();
    var body := ListBytes(WalkWriter(c), walks);
    WalksReturn(c, v, walks, rest);
    WordReturns(|v|, 8, body + rest);
    DumpBytesSplit(c, walks, rest);
    ReadDumpOf(c, DumpBytes(c, walks) + rest, |v|, body + rest);
  }

  /** A recording is read back unchanged exactly when every count of it fits its field. */
  lemma {:induction false} RecordingReturnsExactlyWhen(c: Codec, v: seq<Chunk>, walks: seq<seq<Entry>>)
    requires RecordingSurvives(c, v) && AreWalks(v, walks)
    ensures (ReadDump(c, DumpBytes(c, walks)).Read? && ReadDump(c, DumpBytes(c, walks)).value == v) <==> Fits(v)
  {
    var bs := DumpBytes(c, walks);
    if Fits(v) {
      FittingRecordingReturns(c, v, walks, []);
      assert bs + [] == bs;
    } else if ReadDump(c, bs).Read? {
      WhatIsReadFits(c, bs);
    }
  }

  /** Every recording has walks, so there is always something to read back. */
  lemma {:induction false} WalkExists(m: Chunk, left: set<U64>, es: seq<Entry>) returns (all: seq<Entry>)
    requires Walked(m, es, left)
    ensures IsWalk(m, all)
    decreases left
  {
    if left == {} {
      all := es;
    } else {
      LeastExists(left);
      var k :| IsLeast(k, left);
      WalkOn(m, es, left, k);
      all := WalkExists(m, left - {k}, es + [Entry(k, m[k])]);
    }
  }

  /** A codec for the messages that say 0 or 1: no bytes for the one, one byte for the other. */
  function TwoMessages(): Codec {
    Codec((m: Proto) => if m.says == 0 then [] else [1], (bs: seq<Byte>) => Proto(if bs == [] then 0 else 1))
  }

  lemma {:induction false} TwoMessagesSurvive(says: int)
    requires says == 0 || says == 1
    ensures Survives(TwoMessages(), Proto(says))
  {
  }

  lemma {:induction false} OneTickReturns(c: Codec, m: Chunk) returns (es: seq<Entry>)
    requires ChunkSurvives(c, m) && ChunkFits(m)
    ensures RecordingSurvives(c, [m]) && AreWalks([m], [es]) && Fits([m])
    ensures ReadDump(c, DumpBytes(c, [es])) == Read([m], [])
  {
    es := WalkExists(m, m.Keys, []);
    FittingRecordingReturns(c, [m], [es], []);
    assert DumpBytes(c, [es]) + [] == DumpBytes(c, [es]);
  }

  /** A codec and a recording of two base stations and a UE that meet the conditions, and what is read back. */
  lemma {:induction false} SomeRecordingReturns() returns (m: Chunk, es: seq<Entry>)
    ensures m.Keys == {7, 9} && |m[7].ues| == 1
    ensures RecordingSurvives(TwoMessages(), [m]) && AreWalks([m], [es]) && Fits([m])
    ensures ReadDump(TwoMessages(), DumpBytes(TwoMessages(), [es])) == Read([m], [])
  {
    TwoMessagesSurvive(0);
    TwoMessagesSurvive(1);
    var ue := UeDump(Proto(1), [true, false, true, true, false, false, false, true]);
    var b := BsDump(-5, Proto(1), Proto(0), Proto(1), [ue]);
    m := map[7 := b, 9 := b.(ues := [])];
    assert m.Keys == {7, 9};
    es := OneTickReturns(TwoMessages(), m);
  }
}
