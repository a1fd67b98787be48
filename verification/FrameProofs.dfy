/** What becomes of any bytes that come over a connection. */
module FrameProofs {
  import opened AgentSessions
  import opened Bytes
  import opened Framing
  import opened SessionProofs
  import opened Streams

  /** The four bytes of a length, as a sum. */
  function Announced(bs: seq<Byte>): nat
    requires |bs| >= 4
  {
    Sum(bs[0], bs[1], bs[2], bs[3])
  }

  function Sum(a: nat, b: nat, c: nat, d: nat): nat {
    a * 0x100_0000 + b * 0x1_0000 + c * 0x100 + d
  }

  /** The bytes do not begin with a frame, and this is how reading ends with them. */
  ghost predicate EndsAs(bs: seq<Byte>, end: End) {
    if |bs| < 4 then end == Closed
    else
      var len := Announced(bs);
      if len < 0x8000_0000 then |bs| < 4 + len && end == Closed
      else end == if len < 0xFFFF_FFFC then Thrown else Overrun
  }

  lemma {:induction false} HeaderIs(h: seq<Byte>)
    requires |h| == 4
    ensures FromBig(h) == Announced(h) < TWO_32
  {
    assert h == [h[0], h[1], h[2], h[3]];
    FromFour(h[0], h[1], h[2], h[3]);
    AssembledIsSum(h[0], h[1], h[2], h[3]);
  }

  lemma {:induction false} ShiftedOut(h: nat, d: nat)
    requires d < 256
    ensures (h * 0x100 + d) / 0x100 == h && (h * 0x100 + d) % 256 == d
  {
  }

  lemma {:induction false} BigOfSum(a: nat, b: nat, c: nat, d: nat, b2: nat, b3: nat, n: nat)
    requires a < 256 && b < 256 && c < 256 && d < 256
    requires b2 == a * 0x100 + b && b3 == b2 * 0x100 + c && n == b3 * 0x100 + d
    ensures Big(n, 4) == [a, b, c, d]
  {
    ShiftedOut(a, b);
    ShiftedOut(b2, c);
    ShiftedOut(b3, d);
    OneByte(n, 4);
    OneByte(b3, 3);
    OneByte(b2, 2);
    OneByte(a, 1);
  }

  /** A length is written as the bytes it was read from. */
  lemma {:induction false} HeaderComesBack(h: seq<Byte>)
    requires |h| == 4
    ensures Big(FromBig(h), 4) == h
  {
    HeaderIs(h);
    var a: nat := h[0];
    var b2: nat := a * 0x100 + h[1];
    var b3: nat := b2 * 0x100 + h[2];
    BigOfSum(a, h[1], h[2], h[3], b2, b3, FromBig(h));
  }

  lemma {:induction false} OneByte(n: nat, w: nat)
    requires w > 0
    ensures Big(n, w) == Big(n / 256, w - 1) + [n % 256]
  {
  }

  /** One header and body, by the length announced. */
  lemma {:induction false} ReadFrameIs(bs: seq<Byte>, len: nat, rest: seq<Byte>)
    requires |bs| >= 4 && len == FromBig(bs[..4]) && rest == bs[4..] && len < TWO_32
    ensures ReadFrame(bs) == (
              if len >= 0xFFFF_FFFC then Ended(Overrun)
              else if len >= 0x8000_0000 then Ended(Thrown)
              else if |rest| < len then Ended(Closed)
              else Complete(rest[..len], rest[len..]))
  {
    HeaderOutcome(len);
  }

  lemma {:induction false} FrameFirst(bs: seq<Byte>, len: nat, rest: seq<Byte>)
    requires |bs| >= 4 && rest == bs[4..] && len <= |rest| && len < BODY_LIMIT && Big(len, 4) == bs[..4]
    ensures bs == Frame(rest[..len]) + rest[len..]
  {
    assert bs == bs[..4] + rest;
    assert rest == rest[..len] + rest[len..];
    Regroup(bs[..4], rest[..len], rest[len..]);
  }

  lemma {:induction false} FrameOrEnd(bs: seq<Byte>)
    ensures match ReadFrame(bs)
      case Complete(body, rest) => bs == Frame(body) + rest && |rest| < |bs|
      case Ended(end) => EndsAs(bs, end)
  {
    if |bs| >= 4 {
      FrameOrEndOf(bs, bs[..4], FromBig(bs[..4]), bs[4..]);
    }
  }

  lemma {:induction false} FrameOrEndOf(bs: seq<Byte>, h: seq<Byte>, len: nat, rest: seq<Byte>)
    requires |bs| >= 4 && h == bs[..4] && len == FromBig(h) && rest == bs[4..]
    ensures match ReadFrame(bs)
      case Complete(body, rest') => bs == Frame(body) + rest' && |rest'| < |bs|
      case Ended(end) => EndsAs(bs, end)
  {
    HeaderIs(h);
    HeaderComesBack(h);
    ReadFrameIs(bs, len, rest);
    assert Announced(bs) == len;
    if len < 0x8000_0000 && len <= |rest| {
      FrameFirst(bs, len, rest);
    }
  }

  lemma {:induction false} WireOfMore(b: Body, bodies: seq<Body>)
    ensures Wire([b] + bodies) == Frame(b) + Wire(bodies)
  {
    if bodies == [] {
      assert [b] + bodies == [b];
    } else {
      var init, last := bodies[..|bodies| - 1], bodies[|bodies| - 1];
      WireOfMore(b, init);
      assert ([b] + bodies)[..|bodies|] == [b] + init;
      Regroup(Frame(b), Wire(init), Frame(last));
    }
  }

  /**
   * Whatever comes in is the frames of the bodies that are forwarded, and then what is not a frame: too few bytes for
   * a header or for its body, which ends with the connection; a length of 2^31 or more, which throws; or one of the
   * last four lengths, which overruns the buffer.
   */
  lemma {:induction false} EveryInputSplits(bs: seq<Byte>) returns (tail: seq<Byte>)
    ensures bs == Wire(Forwarded(bs)) + tail && EndsAs(tail, EndOf(bs))
    decreases |bs|
  {
    FrameOrEnd(bs);
    match ReadFrame(bs)
    case Ended(_) =>
      tail := bs;
    case Complete(body, rest) =>
      tail := EveryInputSplits(rest);
      WireOfMore(body, Forwarded(rest));
      Regroup(Frame(body), Wire(Forwarded(rest)), tail);
  }
}
