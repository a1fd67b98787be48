/** Writing to and reading from a byte stream: words, blocks and lists of anything that can be written. */
module Streams {
  import opened Bytes
  import opened Options

  /** Reading ends early when the input does. */
  datatype Read<+T> = Short | Read(value: T, rest: seq<Byte>) {
    predicate IsFailure() {
      Short?
    }

    function PropagateFailure<U>(): Read<U>
      requires Short?
    {
      Short
    }

    function Extract(): (T, seq<Byte>)
      requires Read?
    {
      (value, rest)
    }
  }

  function ReadBytes(n: nat, bs: seq<Byte>): Read<seq<Byte>> {
    if |bs| < n then Short else Read(bs[..n], bs[n..])
  }

  /** A word of `w` bytes in the order of the machine, which is little-endian. */
  function ReadWord(w: nat, bs: seq<Byte>): Read<nat> {
    if |bs| < w then Short else Read(FromLittle(bs[..w]), bs[w..])
  }

  function ReadMany<T>(one: seq<Byte> -> Read<T>, n: nat, bs: seq<Byte>): Read<seq<T>> {
    if n == 0 then Read([], bs)
    else
      var (x, rest) :- one(bs);
      var (xs, rest) :- ReadMany(one, n - 1, rest);
      Read([x] + xs, rest)
  }

  function ListBytes<T>(enc: T -> seq<Byte>, xs: seq<T>): seq<Byte> {
    if xs == [] then [] else enc(xs[0]) + ListBytes(enc, xs[1..])
  }

  /** What is written of `x` is read back as `y`, whatever follows. */
  ghost predicate Returns<S, T>(enc: S -> seq<Byte>, one: seq<Byte> -> Read<T>, x: S, y: T) {
    forall rest :: one(enc(x) + rest) == Read(y, rest)
  }

  lemma {:induction false} WordReturns(n: nat, w: nat, rest: seq<Byte>)
    requires n < Pow256(w)
    ensures ReadWord(w, Little(n, w) + rest) == Read(n, rest)
  {
    LittleRoundTrip(n, w);
    assert (Little(n, w) + rest)[..w] == Little(n, w) && (Little(n, w) + rest)[w..] == rest;
  }

  lemma {:induction false} Regroup(a: seq<Byte>, b: seq<Byte>, c: seq<Byte>)
    ensures (a + b) + c == a + (b + c)
  {
  }

  /** A list returns when each of its elements does. */
  lemma {:induction false} ManyReturn<S, T>(enc: S -> seq<Byte>, one: seq<Byte> -> Read<T>, xs: seq<S>,
                                            ys: seq<T>, rest: seq<Byte>)
    requires |xs| == |ys| && forall i | 0 <= i < |xs| :: Returns(enc, one, xs[i], ys[i])
    ensures ReadMany(one, |xs|, ListBytes(enc, xs) + rest) == Read(ys, rest)
  {
    if xs == [] {
      assert ListBytes(enc, xs) + rest == rest;
    } else {
      var later := ListBytes(enc, xs[1..]) + rest;
      Regroup(enc(xs[0]), ListBytes(enc, xs[1..]), rest);
      assert Returns(enc, one, xs[0], ys[0]);
      assert one(enc(xs[0]) + later) == Read(ys[0], later);
      ManyReturn(enc, one, xs[1..], ys[1..], rest);
      assert [ys[0]] + ys[1..] == ys;
    }
  }

  /** A list has as many elements as were asked for, each of which was read. */
  lemma {:induction false} ManyAre<T>(one: seq<Byte> -> Read<T>, n: nat, bs: seq<Byte>, xs: seq<T>, rest: seq<Byte>)
    requires ReadMany(one, n, bs) == Read(xs, rest)
    ensures |xs| == n
    ensures forall x | x in xs :: exists at :: one(at).Read? && one(at).value == x
  {
    if n == 0 {
    } else {
      var r := one(bs);
      ManyAre(one, n - 1, r.rest, xs[1..], rest);
      assert xs == [r.value] + xs[1..];
    }
  }

  /** The list of `n` elements that starts at `start` is `xs`, and then the missing elements at `bs`. */
  ghost predicate Reading<T>(one: seq<Byte> -> Read<T>, n: nat, start: seq<Byte>, xs: seq<T>, bs: seq<Byte>) {
    |xs| <= n && ReadMany(one, n, start) == Prepended(xs, ReadMany(one, n - |xs|, bs))
  }

  function Prepended<T>(xs: seq<T>, r: Read<seq<T>>): Read<seq<T>> {
    if r.Short? then Short else Read(xs + r.value, r.rest)
  }

  lemma {:induction false} ReadingStarts<T>(one: seq<Byte> -> Read<T>, n: nat, bs: seq<Byte>)
    ensures Reading(one, n, bs, [], bs)
  {
    var later := ReadMany(one, n, bs);
    assert later.Read? ==> [] + later.value == later.value;
  }

  lemma {:induction false} ReadingGoesOn<T>(one: seq<Byte> -> Read<T>, n: nat, start: seq<Byte>, xs: seq<T>,
                                            bs: seq<Byte>)
    requires |xs| < n && Reading(one, n, start, xs, bs)
    ensures one(bs).Short? ==> ReadMany(one, n, start).Short?
    ensures one(bs).Read? ==> Reading(one, n, start, xs + [one(bs).value], one(bs).rest)
  {
    var left := n - |xs|;
    if one(bs).Read? {
      assert n - |xs + [one(bs).value]| == left - 1;
      if ReadMany(one, left - 1, one(bs).rest).Read? {
        var x, later := one(bs).value, ReadMany(one, left - 1, one(bs).rest).value;
        assert xs + ([x] + later) == (xs + [x]) + later;
      }
    }
  }

  lemma {:induction false} ReadingEnds<T>(one: seq<Byte> -> Read<T>, n: nat, start: seq<Byte>, xs: seq<T>,
                                          bs: seq<Byte>)
    requires |xs| == n && Reading(one, n, start, xs, bs)
    ensures ReadMany(one, n, start) == Read(xs, bs)
  {
    assert xs + [] == xs;
  }

  lemma {:induction false} ListBytesOfMore<T>(enc: T -> seq<Byte>, xs: seq<T>, x: T)
    ensures ListBytes(enc, xs + [x]) == ListBytes(enc, xs) + enc(x)
  {
    if xs == [] {
      assert xs + [x] == [x];
    } else {
      assert (xs + [x])[1..] == xs[1..] + [x];
      ListBytesOfMore(enc, xs[1..], x);
    }
  }

  class Output {
    var bytes: seq<Byte>

    constructor ()
      ensures bytes == []
    {
      bytes := [];
    }

    method Write(bs: seq<Byte>)
      modifies this
      ensures bytes == old(bytes) + bs
    {
      bytes := bytes + bs;
    }
  }

  /** What a reading method got, compared with what the format says. */
  ghost predicate Got<T>(expected: Read<T>, r: Option<T>, rest: seq<Byte>) {
    if expected.Short? then r.None? else r == Some(expected.value) && rest == expected.rest
  }

  class Input {
    var rest: seq<Byte>

    constructor (bytes: seq<Byte>)
      ensures rest == bytes
    {
      rest := bytes;
    }

    method Take(n: nat) returns (r: Option<seq<Byte>>)
      modifies this
      ensures Got(ReadBytes(n, old(rest)), r, rest)
    {
      if |rest| < n {
        return None;
      }
      r := Some(rest[..n]);
      rest := rest[n..];
    }

    method TakeWord(w: nat) returns (r: Option<nat>)
      modifies this
      ensures Got(ReadWord(w, old(rest)), r, rest)
    {
      var bs := Take(w);
      if bs.None? {
        return None;
      }
      return Some(FromLittle(bs.value));
    }
  }
}
