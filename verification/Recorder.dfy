/** The binary form in which measurements are recorded (src/app/recorder.cc:309-489). */
module Recorder {
  import opened Bits
  import opened Bytes
  import opened Options
  import opened Streams

  /** A protobuf message, told apart from others by what it says. */
  datatype Proto = Proto(says: int)

  /** Protobuf's serialisation of the recorded messages, and what parsing leaves in a message. */
  datatype Codec = Codec(ser: Proto -> seq<Byte>, par: seq<Byte> -> Proto)

  /** Parsing the bytes of this message gives it back, and their number fits the length field. */
  ghost predicate Survives(c: Codec, m: Proto) {
    c.par(c.ser(m)) == m && |c.ser(m)| < TWO_64
  }

  const HARQ_PIDS := 8

  type Harqs = h: seq<bool> | |h| == HARQ_PIDS witness [false, false, false, false, false, false, false, false]
  type U64 = n: int | 0 <= n < TWO_64
  type I64 = n: int | -0x8000_0000_0000_0000 <= n < 0x8000_0000_0000_0000

  datatype UeDump = UeDump(stats: Proto, harq: Harqs)
  datatype BsDump = BsDump(time: I64, enbConfig: Proto, ueConfig: Proto, lcConfig: Proto, ues: seq<UeDump>)

  datatype Entry = Entry(id: U64, bs: BsDump)

  /** The base stations recorded at one tick. */
  type Chunk = map<U64, BsDump>

  /** All messages of one base station survive, and all of a recording's. */
  ghost predicate EntrySurvives(c: Codec, b: BsDump) {
    && Survives(c, b.enbConfig) && Survives(c, b.ueConfig) && Survives(c, b.lcConfig)
    && forall u | u in b.ues :: Survives(c, u.stats)
  }

  ghost predicate ChunkSurvives(c: Codec, m: Chunk) {
    forall id | id in m :: EntrySurvives(c, m[id])
  }

  ghost predicate RecordingSurvives(c: Codec, v: seq<Chunk>) {
    forall m | m in v :: ChunkSurvives(c, m)
  }

  // ---------- HARQ flags ----------

  function Packed(h: Harqs, i: nat): nat
    requires i <= HARQ_PIDS
  {
    if i == 0 then 0 else BitOr(Packed(h, i - 1), if h[i - 1] then Pow2(i - 1) else 0)
  }

  function Unpacked(b: nat): Harqs {
    seq(HARQ_PIDS, j requires 0 <= j => Bit(b, j))
  }

  lemma {:induction false} PackedBits(h: Harqs, i: nat, k: nat)
    requires i <= HARQ_PIDS
    ensures Bit(Packed(h, i), k) <==> k < i && h[k]
  {
    ZeroBits(k);
    if i == 0 {
    } else {
      PackedBits(h, i - 1, k);
      OrBits(Packed(h, i - 1), if h[i - 1] then Pow2(i - 1) else 0, k);
      PowerBits(i - 1, k);
    }
  }

  lemma {:induction false} PackedIsByte(h: Harqs)
    ensures Packed(h, HARQ_PIDS) < 256
  {
    forall k: nat { PackedBits(h, HARQ_PIDS, k); }
    BoundedBits(Packed(h, HARQ_PIDS), 8);
    assert Pow2(4) == 16;
  }

  /** Eight flags survive their byte. */
  lemma {:induction false} HarqRoundTrip(h: Harqs)
    ensures Unpacked(Packed(h, HARQ_PIDS)) == h
  {
    forall k: nat { PackedBits(h, HARQ_PIDS, k); }
  }

  function HarqByte(h: Harqs): Byte {
    PackedIsByte(h);
    Packed(h, HARQ_PIDS)
  }

  // ---------- the format ----------

  function ProtoBytes(c: Codec, m: Proto): seq<Byte> {
    Little(|c.ser(m)|, 8) + c.ser(m)
  }

  function ReadProto(c: Codec, bs: seq<Byte>): Read<Proto> {
    var (n, rest) :- ReadWord(8, bs);
    var (body, rest) :- ReadBytes(n, rest);
    Read(c.par(body), rest)
  }

  function UeBytes(c: Codec, u: UeDump): seq<Byte> {
    ProtoBytes(c, u.stats) + [HarqByte(u.harq)]
  }

  function ReadUe(c: Codec, bs: seq<Byte>): Read<UeDump> {
    var (m, rest) :- ReadProto(c, bs);
    var (b, rest) :- ReadWord(1, rest);
    Read(UeDump(m, Unpacked(b)), rest)
  }

  /** Only the low 16 bits of a list's length are written, but all of the list. */
  function CountedBytes<T>(enc: T -> seq<Byte>, xs: seq<T>): seq<Byte> {
    Little(|xs|, 2) + ListBytes(enc, xs)
  }

  function ReadCounted<T>(one: seq<Byte> -> Read<T>, bs: seq<Byte>): Read<seq<T>> {
    var (n, rest) :- ReadWord(2, bs);
    ReadMany(one, n, rest)
  }

  function UeWriter(c: Codec): UeDump -> seq<Byte> {
    u => UeBytes(c, u)
  }

  function UeReader(c: Codec): seq<Byte> -> Read<UeDump> {
    bs => ReadUe(c, bs)
  }

  /** Time is written in two's complement. */
  function TimeWord(t: I64): U64 {
    if t >= 0 then t else t + TWO_64
  }

  function WordTime(n: U64): I64 {
    if n < 0x8000_0000_0000_0000 then n else n - TWO_64
  }

  function ReadU64(bs: seq<Byte>): Read<U64> {
    var (n, rest) :- ReadWord(8, bs);
    FromLittleBound(bs[..8]);
    WordSizes();
    Read(n, rest)
  }

  function ConfigsBytes(c: Codec, enb: Proto, ue: Proto, lc: Proto): seq<Byte> {
    ProtoBytes(c, enb) + (ProtoBytes(c, ue) + ProtoBytes(c, lc))
  }

  function ReadConfigs(c: Codec, bs: seq<Byte>): Read<(Proto, Proto, Proto)> {
    var (enb, rest) :- ReadProto(c, bs);
    var (ue, rest) :- ReadProto(c, rest);
    var (lc, rest) :- ReadProto(c, rest);
    Read((enb, ue, lc), rest)
  }

  function EntryBytes(c: Codec, e: Entry): seq<Byte> {
    Little(e.id, 8) + (Little(TimeWord(e.bs.time), 8)
      + (ConfigsBytes(c, e.bs.enbConfig, e.bs.ueConfig, e.bs.lcConfig) + CountedBytes(UeWriter(c), e.bs.ues)))
  }

  function ReadEntry(c: Codec, bs: seq<Byte>): Read<Entry> {
    var (id, rest) :- ReadU64(bs);
    var (time, rest) :- ReadU64(rest);
    var (configs, rest) :- ReadConfigs(c, rest);
    var (us, rest) :- ReadCounted(UeReader(c), rest);
    Read(Entry(id, BsDump(WordTime(time), configs.0, configs.1, configs.2, us)), rest)
  }

  function EntryWriter(c: Codec): Entry -> seq<Byte> {
    e => EntryBytes(c, e)
  }

  function EntryReader(c: Codec): seq<Byte> -> Read<Entry> {
    bs => ReadEntry(c, bs)
  }

  /** The list is the map walked in ascending order of the keys. */
  ghost predicate IsWalk(m: Chunk, es: seq<Entry>) {
    && |es| == |m|
    && (forall e | e in es :: e.id in m && m[e.id] == e.bs)
    && (forall id | id in m :: Entry(id, m[id]) in es)
    && forall i, j | 0 <= i < j < |es| :: es[i].id < es[j].id
  }

  /** A base station that comes again is dropped. */
  function Gathered(es: seq<Entry>): Chunk {
    if es == [] then map[]
    else
      var m, e := Gathered(es[..|es| - 1]), es[|es| - 1];
      if e.id in m then m else m[e.id := e.bs]
  }

  function ReadChunk(c: Codec, bs: seq<Byte>): Read<Chunk> {
    var (es, rest) :- ReadCounted(EntryReader(c), bs);
    Read(Gathered(es), rest)
  }

  function ChunkReader(c: Codec): seq<Byte> -> Read<Chunk> {
    bs => ReadChunk(c, bs)
  }

  function WalkWriter(c: Codec): seq<Entry> -> seq<Byte> {
    es => CountedBytes(EntryWriter(c), es)
  }

  /** The recording of the ticks whose base stations are walked like this. */
  function DumpBytes(c: Codec, walks: seq<seq<Entry>>): seq<Byte> {
    Little(|walks|, 8) + ListBytes(WalkWriter(c), walks)
  }

  function ReadDump(c: Codec, bs: seq<Byte>): Read<seq<Chunk>> {
    var (n, rest) :- ReadWord(8, bs);
    ReadMany(ChunkReader(c), n, rest)
  }

  // ---------- writing ----------

  method WriteProto(c: Codec, s: Output, m: Proto)
    modifies s
    ensures s.bytes == old(s.bytes) + ProtoBytes(c, m)
  {
    var body := c.ser(m);
    s.Write(Little(|body|, 8));
    s.Write(body);
    Regroup(old(s.bytes), Little(|body|, 8), body);
  }

  method WriteUe(c: Codec, s: Output, u: UeDump)
    modifies s
    ensures s.bytes == old(s.bytes) + UeBytes(c, u)
  {
    WriteProto(c, s, u.stats);
    var harq := 0;
    for i := 0 to HARQ_PIDS
      invariant harq == Packed(u.harq, i)
    {
      harq := BitOr(harq, if u.harq[i] then Pow2(i) else 0);
    }
    PackedIsByte(u.harq);
    s.Write([harq]);
    Regroup(old(s.bytes), ProtoBytes(c, u.stats), [HarqByte(u.harq)]);
  }

  method WriteUes(c: Codec, s: Output, us: seq<UeDump>)
    modifies s
    ensures s.bytes == old(s.bytes) + CountedBytes(UeWriter(c), us)
  {
    s.Write(Little(|us|, 2));
    ghost var start := s.bytes;
    for i := 0 to |us|
      invariant s.bytes == start + ListBytes(UeWriter(c), us[..i])
    {
      WriteUe(c, s, us[i]);
      ListBytesOfMore(UeWriter(c), us[..i], us[i]);
      Regroup(start, ListBytes(UeWriter(c), us[..i]), UeBytes(c, us[i]));
      assert us[..i + 1] == us[..i] + [us[i]];
    }
    assert us[..|us|] == us;
    Regroup(old(s.bytes), Little(|us|, 2), ListBytes(UeWriter(c), us));
  }

  method WriteEntry(c: Codec, s: Output, id: U64, b: BsDump)
    modifies s
    ensures s.bytes == old(s.bytes) + EntryBytes(c, Entry(id, b))
  {
    s.Write(Little(id, 8));
    s.Write(Little(TimeWord(b.time), 8));
    WriteProto(c, s, b.enbConfig);
    WriteProto(c, s, b.ueConfig);
    WriteProto(c, s, b.lcConfig);
    WriteUes(c, s, b.ues);
    EntryParts(old(s.bytes), Little(id, 8), Little(TimeWord(b.time), 8), ProtoBytes(c, b.enbConfig),
               ProtoBytes(c, b.ueConfig), ProtoBytes(c, b.lcConfig), CountedBytes(UeWriter(c), b.ues));
  }

  lemma {:induction false} EntryParts(s: seq<Byte>, a: seq<Byte>, b: seq<Byte>, c: seq<Byte>, d: seq<Byte>,
                                      e: seq<Byte>, f: seq<Byte>)
    ensures s + a + b + c + d + e + f == s + (a + (b + ((c + (d + e)) + f)))
  {
  }

  /** The entries already written, before the base stations that are left. */
  ghost predicate Walked(m: Chunk, es: seq<Entry>, left: set<U64>) {
    && left <= m.Keys && |es| + |left| == |m|
    && (forall e | e in es :: e.id in m && e.id !in left && m[e.id] == e.bs)
    && (forall id | id in m && id !in left :: Entry(id, m[id]) in es)
    && (forall i, j | 0 <= i < j < |es| :: es[i].id < es[j].id)
    && forall e, id | e in es && id in left :: e.id < id
  }

  ghost predicate IsLeast(k: U64, s: set<U64>) {
    k in s && forall j | j in s :: k <= j
  }

  lemma {:induction false} LeastExists(s: set<U64>)
    requires s != {}
    ensures exists k :: IsLeast(k, s)
  {
    var x :| x in s;
    var others := s - {x};
    assert s == others + {x};
    if others == {} {
      assert IsLeast(x, s);
    } else {
      LeastExists(others);
      var k :| IsLeast(k, others);
      assert IsLeast(if x < k then x else k, s);
    }
  }

  lemma {:induction false} WalkOn(m: Chunk, es: seq<Entry>, left: set<U64>, k: U64)
    requires Walked(m, es, left) && IsLeast(k, left)
    ensures Walked(m, es + [Entry(k, m[k])], left - {k})
  {
  }

  method WriteChunk(c: Codec, s: Output, m: Chunk) returns (ghost es: seq<Entry>)
    modifies s
    ensures IsWalk(m, es)
    ensures s.bytes == old(s.bytes) + CountedBytes(EntryWriter(c), es)
  {
    s.Write(Little(|m|, 2));
    ghost var start := s.bytes;
    var left := m.Keys;
    es := [];
    while left != {}
      invariant Walked(m, es, left)
      invariant s.bytes == start + ListBytes(EntryWriter(c), es)
      decreases left
    {
      LeastExists(left);
      var k :| k in left && forall j | j in left :: k <= j;
      WriteEntry(c, s, k, m[k]);
      ListBytesOfMore(EntryWriter(c), es, Entry(k, m[k]));
      Regroup(start, ListBytes(EntryWriter(c), es), EntryBytes(c, Entry(k, m[k])));
      WalkOn(m, es, left, k);
      es := es + [Entry(k, m[k])];
      left := left - {k};
    }
    Regroup(old(s.bytes), Little(|m|, 2), ListBytes(EntryWriter(c), es));
  }

  ghost predicate AreWalks(v: seq<Chunk>, walks: seq<seq<Entry>>) {
    |walks| == |v| && forall i | 0 <= i < |v| :: IsWalk(v[i], walks[i])
  }

  lemma {:induction false} WalksOn(v: seq<Chunk>, i: nat, walks: seq<seq<Entry>>, es: seq<Entry>)
    requires i < |v| && AreWalks(v[..i], walks) && IsWalk(v[i], es)
    ensures AreWalks(v[..i + 1], walks + [es])
  {
    forall k | 0 <= k < i ensures IsWalk(v[..i + 1][k], walks[k]) {
      assert v[..i + 1][k] == v[..i][k];
    }
  }

  method WriteBinary(c: Codec, s: Output, v: seq<Chunk>) returns (n: nat, ghost walks: seq<seq<Entry>>)
    modifies s
    ensures n == |v| && AreWalks(v, walks)
    ensures s.bytes == old(s.bytes) + DumpBytes(c, walks)
  {
    n := |v|;
    s.Write(Little(n, 8));
    ghost var start := s.bytes;
    walks := [];
    for i := 0 to |v|
      invariant AreWalks(v[..i], walks)
      invariant s.bytes == start + ListBytes(WalkWriter(c), walks)
    {
      ghost var es := WriteChunk(c, s, v[i]);
      ListBytesOfMore(WalkWriter(c), walks, es);
      Regroup(start, ListBytes(WalkWriter(c), walks), CountedBytes(EntryWriter(c), es));
      WalksOn(v, i, walks, es);
      walks := walks + [es];
    }
    assert v[..|v|] == v;
    Regroup(old(s.bytes), Little(n, 8), ListBytes(WalkWriter(c), walks));
  }

  // ---------- reading ----------

  method ReadProtoFrom(c: Codec, s: Input) returns (r: Option<Proto>)
    modifies s
    ensures Got(ReadProto(c, old(s.rest)), r, s.rest)
  {
    var n := s.TakeWord(8);
    if n.None? {
      return None;
    }
    var body := s.Take(n.value);
    if body.None? {
      return None;
    }
    return Some(c.par(body.value));
  }

  /** The test the code makes on each flag's bit. */
  lemma {:induction false} MaskedBit(b: nat, j: nat)
    ensures BitAnd(b, Pow2(j)) != 0 <==> Bit(b, j)
  {
    AndZeroIffNoCommonBit(b, Pow2(j));
    forall k: nat ensures Bit(Pow2(j), k) <==> k == j {
      PowerBits(j, k);
    }
  }

  method UnpackHarq(b: nat) returns (harq: seq<bool>)
    ensures harq == Unpacked(b)
  {
    harq := [];
    for j := 0 to HARQ_PIDS
      invariant |harq| == j && forall k | 0 <= k < j :: harq[k] == Bit(b, k)
    {
      MaskedBit(b, j);
      harq := harq + [BitAnd(b, Pow2(j)) != 0];
    }
  }

  method ReadUeFrom(c: Codec, s: Input) returns (r: Option<UeDump>)
    modifies s
    ensures Got(ReadUe(c, old(s.rest)), r, s.rest)
  {
    var m := ReadProtoFrom(c, s);
    if m.None? {
      return None;
    }
    var b := s.TakeWord(1);
    if b.None? {
      return None;
    }
    var harq := UnpackHarq(b.value);
    return Some(UeDump(m.value, harq));
  }

  method ReadUesFrom(c: Codec, s: Input) returns (r: Option<seq<UeDump>>)
    modifies s
    ensures Got(ReadCounted(UeReader(c), old(s.rest)), r, s.rest)
  {
    var n := s.TakeWord(2);
    if n.None? {
      return None;
    }
    ghost var start := s.rest;
    var us := [];
    ReadingStarts(UeReader(c), n.value, start);
    for i := 0 to n.value
      invariant |us| == i && Reading(UeReader(c), n.value, start, us, s.rest)
    {
      ReadingGoesOn(UeReader(c), n.value, start, us, s.rest);
      var u := ReadUeFrom(c, s);
      if u.None? {
        return None;
      }
      us := us + [u.value];
    }
    ReadingEnds(UeReader(c), n.value, start, us, s.rest);
    return Some(us);
  }

  method ReadEntryFrom(c: Codec, s: Input) returns (r: Option<Entry>)
    modifies s
    ensures Got(ReadEntry(c, old(s.rest)), r, s.rest)
  {
    WordSizes();
    forall bs: seq<Byte> | |bs| >= 8 ensures FromLittle(bs[..8]) < TWO_64 {
      FromLittleBound(bs[..8]);
    }
    var id := s.TakeWord(8);
    if id.None? {
      return None;
    }
    var time := s.TakeWord(8);
    if time.None? {
      return None;
    }
    var enb := ReadProtoFrom(c, s);
    if enb.None? {
      return None;
    }
    var ue := ReadProtoFrom(c, s);
    if ue.None? {
      return None;
    }
    var lc := ReadProtoFrom(c, s);
    if lc.None? {
      return None;
    }
    var us := ReadUesFrom(c, s);
    if us.None? {
      return None;
    }
    return Some(Entry(id.value, BsDump(WordTime(time.value), enb.value, ue.value, lc.value, us.value)));
  }

  lemma {:induction false} GatherMore(es: seq<Entry>, e: Entry)
    ensures Gathered(es + [e]) == if e.id in Gathered(es) then Gathered(es) else Gathered(es)[e.id := e.bs]
  {
    assert (es + [e])[..|es|] == es;
  }

  method ReadChunkFrom(c: Codec, s: Input) returns (r: Option<Chunk>)
    modifies s
    ensures Got(ReadChunk(c, old(s.rest)), r, s.rest)
  {
    var n := s.TakeWord(2);
    if n.None? {
      return None;
    }
    ghost var start := s.rest;
    ghost var es := [];
    var m: Chunk := map[];
    ReadingStarts(EntryReader(c), n.value, start);
    for i := 0 to n.value
      invariant m == Gathered(es)
      invariant |es| == i && Reading(EntryReader(c), n.value, start, es, s.rest)
    {
      ReadingGoesOn(EntryReader(c), n.value, start, es, s.rest);
      var e := ReadEntryFrom(c, s);
      if e.None? {
        return None;
      }
      GatherMore(es, e.value);
      es := es + [e.value];
      if e.value.id !in m {
        m := m[e.value.id := e.value.bs];
      }
    }
    ReadingEnds(EntryReader(c), n.value, start, es, s.rest);
    return Some(m);
  }

  method ReadBinary(c: Codec, s: Input) returns (r: Option<seq<Chunk>>)
    modifies s
    ensures Got(ReadDump(c, old(s.rest)), r, s.rest)
  {
    var n := s.TakeWord(8);
    if n.None? {
      return None;
    }
    ghost var start := s.rest;
    var v := [];
    ReadingStarts(ChunkReader(c), n.value, start);
    for i := 0 to n.value
      invariant |v| == i && Reading(ChunkReader(c), n.value, start, v, s.rest)
    {
      ReadingGoesOn(ChunkReader(c), n.value, start, v, s.rest);
      var m := ReadChunkFrom(c, s);
      if m.None? {
        return None;
      }
      v := v + [m.value];
    }
    ReadingEnds(ChunkReader(c), n.value, start, v, s.rest);
    return Some(v);
  }
}
