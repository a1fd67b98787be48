/** One message on the wire: a length and that many bytes (src/network/protocol_message.cc). */
module Framing {
  import opened Bits
  import opened Bytes

  const HEADER_LENGTH := 4
  const MAX_NORMAL_BODY_LENGTH := 24000

  /** Lengths travel as the `int` they are decoded into. */
  const BODY_LIMIT := 0x8000_0000

  const TWO_32 := 0x1_0000_0000

  /** The largest array that `new` hands out (`PTRDIFF_MAX`). */
  const ARRAY_LIMIT := 0x7FFF_FFFF_FFFF_FFFF

  type Body = b: seq<Byte> | |b| < BODY_LIMIT

  function Frame(b: seq<Byte>): seq<Byte> {
    Big(|b|, HEADER_LENGTH) + b
  }

  lemma {:induction false} BigOfFour(n: nat)
    ensures Big(n, 4) == [n / 0x100_0000 % 256, n / 0x1_0000 % 256, n / 0x100 % 256, n % 256]
  {
    assert Big(n, 4) == Big(n / 256, 3) + [n % 256];
    assert Big(n / 256, 3) == Big(n / 256 / 256, 2) + [n / 256 % 256];
    assert Big(n / 256 / 256, 2) == Big(n / 256 / 256 / 256, 1) + [n / 256 / 256 % 256];
    assert Big(n / 256 / 256 / 256, 1) == [n / 256 / 256 / 256 % 256];
  }

  /** The four bytes shifted into place and or-ed. */
  function Assembled(a: int, b: int, c: int, d: int): nat
    requires 0 <= a < 256 && 0 <= b < 256 && 0 <= c < 256 && 0 <= d < 256
  {
    BitOr(BitOr(BitOr(a * 0x100_0000, b * 0x1_0000), c * 0x100), d)
  }

  lemma {:induction false} PowersOfBytes()
    ensures Pow2(8) == 0x100 && Pow2(16) == 0x1_0000 && Pow2(24) == 0x100_0000
  {
    assert Pow2(4) == 0x10;
    assert Pow2(12) == 0x1000;
    assert Pow2(20) == 0x10_0000;
  }

  lemma {:induction false} AssembledIsSum(a: int, b: int, c: int, d: int)
    requires 0 <= a < 256 && 0 <= b < 256 && 0 <= c < 256 && 0 <= d < 256
    ensures Assembled(a, b, c, d) == a * 0x100_0000 + b * 0x1_0000 + c * 0x100 + d
  {
    PowersOfBytes();
    var h1, h2 := a * 0x100 + b, a * 0x1_0000 + b * 0x100 + c;
    OrBelow(a, b * 0x1_0000, 24);
    assert h1 * Pow2(16) == a * 0x100_0000 + b * 0x1_0000;
    OrBelow(h1, c * 0x100, 16);
    assert h2 * Pow2(8) == h1 * 0x1_0000 + c * 0x100;
    OrBelow(h2, d, 8);
  }

  lemma {:induction false} FromFour(a: Byte, b: Byte, c: Byte, d: Byte)
    ensures FromBig([a, b, c, d]) == Assembled(a, b, c, d)
  {
    AssembledIsSum(a, b, c, d);
    assert FromBig([a]) == a;
    assert [a, b][..1] == [a] && FromBig([a, b]) == 256 * a + b;
    assert [a, b, c][..2] == [a, b] && FromBig([a, b, c]) == 256 * (256 * a + b) + c;
    assert [a, b, c, d][..3] == [a, b, c];
  }

  // ---------- room for a body ----------

  /**
   * What becomes of the buffer for a new length: it has room, the allocation is refused, or it is too small
   * even for the header because the sum of both lengths wrapped around.
   */
  datatype Outcome = Room | Refused | TooSmall(size: nat)

  /** A length as `size_t`, and the buffer that is asked for. */
  function BufferSize(newLength: nat): nat {
    if newLength <= MAX_NORMAL_BODY_LENGTH then HEADER_LENGTH + MAX_NORMAL_BODY_LENGTH
    else if HEADER_LENGTH + newLength < TWO_64 then HEADER_LENGTH + newLength
    else HEADER_LENGTH + newLength - TWO_64
  }

  function OutcomeFor(newLength: nat): Outcome {
    var size := BufferSize(newLength);
    if size > ARRAY_LIMIT then Refused else if size < HEADER_LENGTH then TooSmall(size) else Room
  }

  /** The decoded `int`, converted to `size_t`. */
  function Widened(len: nat): nat {
    if len < BODY_LIMIT then len else len + TWO_64 - TWO_32
  }

  /** The length kept with the message has 32 bits. */
  function Narrowed(newLength: nat): nat {
    newLength % TWO_32
  }

  /** What a header does: every length below 2^31 gets room, the last four overrun the buffer, the others throw. */
  lemma {:induction false} HeaderOutcome(len: nat)
    requires len < TWO_32
    ensures OutcomeFor(Widened(len)) == Room <==> len < BODY_LIMIT
    ensures OutcomeFor(Widened(len)) == Refused <==> BODY_LIMIT <= len < TWO_32 - HEADER_LENGTH
    ensures OutcomeFor(Widened(len)).TooSmall? <==> TWO_32 - HEADER_LENGTH <= len
    ensures len >= TWO_32 - HEADER_LENGTH ==>
      OutcomeFor(Widened(len)) == TooSmall(len - (TWO_32 - HEADER_LENGTH))
  {
  }

  /** The header FF FF FF FF asks for a buffer of three bytes, into which its own four are then written. */
  lemma {:induction false} AllOnesOverrun()
    ensures FromBig([0xFF, 0xFF, 0xFF, 0xFF]) == 0xFFFF_FFFF
    ensures OutcomeFor(Widened(0xFFFF_FFFF)) == TooSmall(3)
  {
    FromFour(0xFF, 0xFF, 0xFF, 0xFF);
    AssembledIsSum(0xFF, 0xFF, 0xFF, 0xFF);
    HeaderOutcome(0xFFFF_FFFF);
  }

  /** What is kept of bytes of any length: their length in the header loses its high bits, as the kept length does. */
  function Framed(buf: seq<Byte>): seq<Byte> {
    Big(|buf|, HEADER_LENGTH) + buf[..Narrowed(|buf|)]
  }

  lemma {:induction false} FramedIsFrame(buf: seq<Byte>)
    requires |buf| < BODY_LIMIT
    ensures Framed(buf) == Frame(buf)
  {
    NarrowedSmall(|buf|);
    assert buf[..|buf|] == buf;
  }

  lemma {:induction false} NarrowedSmall(n: nat)
    requires n < TWO_32
    ensures Narrowed(n) == n
  {
  }

  lemma {:induction false} HeaderBound(h: seq<Byte>)
    requires |h| == HEADER_LENGTH
    ensures FromBig(h) < TWO_32
  {
    assert h == [h[0], h[1], h[2], h[3]];
    FromFour(h[0], h[1], h[2], h[3]);
    AssembledIsSum(h[0], h[1], h[2], h[3]);
  }

  /** A length field and a body in one buffer, which is inside the object unless the body is long. */
  class ProtocolMessage {
    var data: array<Byte>
    const statData: array<Byte>
    var dynamicAlloc: bool
    var bodyLength: nat

    ghost predicate Valid()
      reads this
    {
      && statData.Length == HEADER_LENGTH + MAX_NORMAL_BODY_LENGTH
      && (dynamicAlloc <==> data != statData)
      && HEADER_LENGTH + bodyLength <= data.Length
      && bodyLength < TWO_32
    }

    /** The header and the body of the length kept, which is all that a write sends of a length below 2^32 - 4. */
    ghost function Contents(): seq<Byte>
      requires Valid()
      reads this, data
    {
      data[..HEADER_LENGTH + bodyLength]
    }

    constructor ()
      ensures Valid() && bodyLength == 0 && fresh(data) && fresh(statData)
    {
      statData := new Byte[HEADER_LENGTH + MAX_NORMAL_BODY_LENGTH](_ => 0);
      data := statData;
      dynamicAlloc, bodyLength := false, 0;
    }

    constructor FromBytes(buf: seq<Byte>)
      requires HEADER_LENGTH + |buf| <= ARRAY_LIMIT
      ensures Valid() && fresh(data) && fresh(statData)
      ensures Contents() == Framed(buf)
    {
      statData := new Byte[HEADER_LENGTH + MAX_NORMAL_BODY_LENGTH](_ => 0);
      data := statData;
      dynamicAlloc, bodyLength := false, 0;
      new;
      SetMessage(buf);
    }

    /**
     * Whatever was in the buffer need not survive. A refused allocation throws and leaves nothing to go on with;
     * one that is too small is used as if it were not, and whatever is done with it is undefined.
     */
    method SetBodyLength(newLength: nat) returns (o: Outcome)
      requires Valid() && newLength < TWO_64
      modifies this`data, this`dynamicAlloc, this`bodyLength
      ensures o == OutcomeFor(newLength)
      ensures o.Room? ==> Valid() && bodyLength == Narrowed(newLength)
      ensures o.Room? ==> (dynamicAlloc <==> newLength > MAX_NORMAL_BODY_LENGTH) && data.Length == BufferSize(newLength)
      ensures o.TooSmall? ==> data.Length == o.size && bodyLength == Narrowed(newLength)
      ensures data == statData || data == old(data) || fresh(data)
      ensures o.Room? ==> data == statData || fresh(data)
    {
      var size := BufferSize(newLength);
      if newLength > MAX_NORMAL_BODY_LENGTH {
        if size > ARRAY_LIMIT {
          return Refused;
        }
        data := new Byte[size](_ => 0);
        dynamicAlloc := true;
      } else {
        data := statData;
        dynamicAlloc := false;
      }
      bodyLength := Narrowed(newLength);
      o := if size < HEADER_LENGTH then TooSmall(size) else Room;
    }

    method EncodeHeader(size: nat)
      requires data.Length >= HEADER_LENGTH
      modifies data
      ensures data[..HEADER_LENGTH] == Big(size, HEADER_LENGTH)
      ensures data[HEADER_LENGTH..] == old(data[HEADER_LENGTH..])
    {
      data[0] := size / 0x100_0000 % 256;
      data[1] := size / 0x1_0000 % 256;
      data[2] := size / 0x100 % 256;
      data[3] := size % 256;
      BigOfFour(size);
    }

    method SetMessage(buf: seq<Byte>)
      requires Valid() && HEADER_LENGTH + |buf| <= ARRAY_LIMIT
      modifies this`data, this`dynamicAlloc, this`bodyLength, data, statData
      ensures Valid() && Contents() == Framed(buf)
      ensures data == statData || fresh(data)
    {
      var o := SetBodyLength(|buf|);
      EncodeHeader(|buf|);
      CopyBody(buf);
      assert Contents() == data[..HEADER_LENGTH] + data[HEADER_LENGTH..][..|buf|][..bodyLength];
    }

    method CopyBody(buf: seq<Byte>)
      requires HEADER_LENGTH + |buf| <= data.Length
      modifies data
      ensures data[..HEADER_LENGTH] == old(data[..HEADER_LENGTH])
      ensures data[HEADER_LENGTH..][..|buf|] == buf
    {
      forall i | 0 <= i < |buf| {
        data[HEADER_LENGTH + i] := buf[i];
      }
      assert data[HEADER_LENGTH..][..|buf|] == buf;
    }

    /** Prepares for the body that the header announces, if there is room for it. */
    method DecodeHeader() returns (o: Outcome)
      requires Valid()
      modifies this`data, this`dynamicAlloc, this`bodyLength, data, statData
      ensures var len := FromBig(old(data[..HEADER_LENGTH]));
        && o == OutcomeFor(Widened(len))
        && (o.Room? ==> Valid() && bodyLength == len && data[..HEADER_LENGTH] == Big(len, HEADER_LENGTH))
      ensures data == statData || data == old(data) || fresh(data)
    {
      FromFour(data[0], data[1], data[2], data[3]);
      assert data[..HEADER_LENGTH] == [data[0], data[1], data[2], data[3]];
      var len := Assembled(data[0], data[1], data[2], data[3]);
      HeaderBound(data[..HEADER_LENGTH]);
      HeaderOutcome(len);
      NarrowedSmall(len);
      o := SetBodyLength(Widened(len));
      if o.Room? {
        EncodeHeader(len);
      }
    }
  }
}
