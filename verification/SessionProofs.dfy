/** What reaches the other side of a connection, over any run of deliveries and write completions. */
module SessionProofs {
  import opened AgentSessions
  import opened Bytes
  import opened Framing
  import opened Streams

  // ---------- frames on the wire ----------

  function Frames(bodies: seq<Body>): seq<seq<Byte>> {
    seq(|bodies|, i requires 0 <= i < |bodies| => Frame(bodies[i]))
  }

  /** The frames of these bodies, one after the other. */
  function Wire(bodies: seq<Body>): seq<Byte> {
    if bodies == [] then [] else Wire(bodies[..|bodies| - 1]) + Frame(bodies[|bodies| - 1])
  }

  lemma {:induction false} HeaderOfBody(b: Body)
    ensures FromBig(Big(|b|, HEADER_LENGTH)) == |b|
  {
    assert BODY_LIMIT < Pow256(4) by {
      assert Pow256(2) == 0x1_0000;
    }
    BigRoundTrip(|b|, HEADER_LENGTH);
  }

  lemma {:induction false} FrameReturns(b: Body, rest: seq<Byte>)
    ensures ReadFrame(Frame(b) + rest) == Complete(b, rest)
  {
    var header, bs := Big(|b|, HEADER_LENGTH), Frame(b) + rest;
    HeaderOfBody(b);
    HeaderOutcome(|b|);
    assert bs[..HEADER_LENGTH] == header && bs[HEADER_LENGTH..] == b + rest;
    assert (b + rest)[..|b|] == b && (b + rest)[|b|..] == rest;
  }

  lemma {:induction false} FrameIsForwarded(b: Body, rest: seq<Byte>)
    ensures Forwarded(Frame(b) + rest) == [b] + Forwarded(rest) && EndOf(Frame(b) + rest) == EndOf(rest)
  {
    FrameReturns(b, rest);
  }

  lemma {:induction false} LastJoins(bodies: seq<Body>, rest: seq<Body>)
    requires bodies != []
    ensures bodies[..|bodies| - 1] + ([bodies[|bodies| - 1]] + rest) == bodies + rest
  {
  }

  lemma {:induction false} OneMore(bodies: seq<Body>, n: nat)
    requires n < |bodies|
    ensures bodies[..n] + [bodies[n]] == bodies[..n + 1]
  {
  }

  /** Reading recovers exactly the bodies that were framed, and goes on with what follows. */
  lemma {:induction false} WireIsForwarded(bodies: seq<Body>, tail: seq<Byte>)
    ensures Forwarded(Wire(bodies) + tail) == bodies + Forwarded(tail)
    ensures EndOf(Wire(bodies) + tail) == EndOf(tail)
  {
    if bodies == [] {
      assert Wire(bodies) + tail == tail;
    } else {
      var init, last := bodies[..|bodies| - 1], bodies[|bodies| - 1];
      Regroup(Wire(init), Frame(last), tail);
      WireIsForwarded(init, Frame(last) + tail);
      FrameIsForwarded(last, tail);
      LastJoins(bodies, Forwarded(tail));
    }
  }

  /** A frame that is not complete forwards nothing. */
  lemma {:induction false} PartialFrameIsSilent(b: Body, n: nat)
    requires n < |Frame(b)|
    ensures Forwarded(Frame(b)[..n]) == [] && EndOf(Frame(b)[..n]) == Closed
  {
    if n >= HEADER_LENGTH {
      var part := Frame(b)[..n];
      assert part[..HEADER_LENGTH] == Big(|b|, HEADER_LENGTH);
      HeaderOfBody(b);
      HeaderOutcome(|b|);
    }
  }

  lemma {:induction false} FrontIsForwarded(b: Body, n: nat)
    requires n <= |Frame(b)|
    ensures Forwarded(Frame(b)[..n]) == if n < |Frame(b)| then [] else [b]
    ensures EndOf(Frame(b)[..n]) == Closed
  {
    if n < |Frame(b)| {
      PartialFrameIsSilent(b, n);
    } else {
      FrameIsForwarded(b, []);
      assert Frame(b)[..n] == Frame(b) + [];
    }
  }

  lemma {:induction false} FramesTail(bodies: seq<Body>, n: nat)
    requires n < |bodies|
    ensures Frames(bodies[n..])[0] == Frame(bodies[n])
    ensures Frames(bodies[n..])[1..] == Frames(bodies[n + 1..])
  {
  }

  // ---------- runs ----------

  /** A delivery, progress of a write, or its end as the socket reports it. */
  datatype Event = Deliver(body: Body) | Transmit(k: nat, n: nat) | Over(k: nat, error: bool)

  /** A write makes progress within its bytes, and succeeds only when all of them have gone out. */
  predicate Enabled(s: Sending, e: Event) {
    match e
    case Deliver(_) => true
    case Transmit(k, n) => k < |s.flights| && s.flights[k].done + n <= |s.flights[k].bytes|
    case Over(k, error) => k < |s.flights| && (!error ==> s.flights[k].done == |s.flights[k].bytes|)
  }

  /** Popping needs a queue that is not empty; nothing is said of what happens otherwise. */
  predicate Safe(s: Sending, e: Event) {
    e.Over? && !e.error ==> s.queue != []
  }

  function Next(s: Sending, e: Event): Sending
    requires Enabled(s, e) && Safe(s, e)
  {
    match e
    case Deliver(body) => Delivered(s, body)
    case Transmit(k, n) => Transmitted(s, k, n)
    case Over(k, error) => WriteOver(s, k, error)
  }

  const START := Sending([], [], [], 0)

  function After(es: seq<Event>): Sending {
    if es == [] then START
    else
      var s, e := After(es[..|es| - 1]), es[|es| - 1];
      if Enabled(s, e) && Safe(s, e) then Next(s, e) else s
  }

  /** Every event could happen where it did. */
  predicate IsRun(es: seq<Event>) {
    es == [] || (IsRun(es[..|es| - 1]) && Enabled(After(es[..|es| - 1]), es[|es| - 1]))
  }

  /** All bodies handed over for delivery, in order. */
  function Bodies(es: seq<Event>): seq<Body> {
    if es == [] then []
    else if es[|es| - 1].Deliver? then Bodies(es[..|es| - 1]) + [es[|es| - 1].body]
    else Bodies(es[..|es| - 1])
  }

  /** How much of the front of the queue has gone out. */
  function Partly(s: Sending, p: nat): seq<Byte> {
    if s.queue != [] && p <= |s.queue[0]| then s.queue[0][..p] else []
  }

  /**
   * The last `|queue|` bodies wait in order; a write is under way exactly while some do and none has failed,
   * and it is the only one and of the front; everything before has gone out, and a part of the front. A failure
   * is reported once.
   */
  ghost predicate InOrder(s: Sending, bodies: seq<Body>, p: nat) {
    && |s.queue| <= |bodies|
    && s.queue == Frames(bodies[|bodies| - |s.queue|..])
    && |s.flights| == (if s.queue == [] || s.disconnects > 0 then 0 else 1)
    && s.disconnects <= 1 && (s.queue == [] ==> p == 0 && s.disconnects == 0)
    && (s.queue != [] ==> p <= |s.queue[0]|)
    && (s.flights != [] ==> s.flights[0] == Flight(s.queue[0], p))
    && s.wire == Wire(bodies[..|bodies| - |s.queue|]) + Partly(s, p)
  }

  lemma {:induction false} DeliverKeepsOrder(s: Sending, bodies: seq<Body>, p: nat, body: Body)
    requires InOrder(s, bodies, p)
    ensures InOrder(Delivered(s, body), bodies + [body], p)
  {
    var bodies', n := bodies + [body], |bodies| - |s.queue|;
    assert bodies'[n..] == bodies[n..] + [body];
    assert bodies'[..n] == bodies[..n];
  }

  lemma {:induction false} JoinParts(bs: seq<Byte>, p: nat, n: nat)
    requires p + n <= |bs|
    ensures bs[..p] + bs[p..p + n] == bs[..p + n]
  {
  }

  lemma {:induction false} TransmitKeepsOrder(s: Sending, bodies: seq<Body>, p: nat, n: nat)
    requires InOrder(s, bodies, p) && Enabled(s, Transmit(0, n))
    ensures InOrder(Transmitted(s, 0, n), bodies, p + n)
  {
    var front := s.queue[0];
    JoinParts(front, p, n);
    Regroup(Wire(bodies[..|bodies| - |s.queue|]), front[..p], front[p..p + n]);
  }

  lemma {:induction false} OverKeepsOrder(s: Sending, bodies: seq<Body>, p: nat, error: bool)
    requires InOrder(s, bodies, p) && Enabled(s, Over(0, error))
    ensures InOrder(WriteOver(s, 0, error), bodies, if error then p else 0)
  {
    if !error {
      var n := |bodies| - |s.queue|;
      var s' := WriteOver(s, 0, error);
      FramesTail(bodies, n);
      assert s.queue[0][..p] == s.queue[0];
      assert bodies[..n + 1][..n] == bodies[..n];
      assert Partly(s', 0) == [];
    }
  }

  /** The bodies delivered once this event has happened. */
  function BodiesAfter(bodies: seq<Body>, e: Event): seq<Body> {
    if e.Deliver? then bodies + [e.body] else bodies
  }

  lemma {:induction false} StepKeepsOrder(s: Sending, bodies: seq<Body>, p: nat, e: Event) returns (p': nat)
    requires InOrder(s, bodies, p) && Enabled(s, e)
    ensures Safe(s, e) && InOrder(Next(s, e), BodiesAfter(bodies, e), p')
  {
    match e
    case Deliver(body) =>
      DeliverKeepsOrder(s, bodies, p, body);
      p' := p;
    case Transmit(k, n) =>
      TransmitKeepsOrder(s, bodies, p, n);
      p' := p + n;
    case Over(k, error) =>
      OverKeepsOrder(s, bodies, p, error);
      p' := if error then p else 0;
  }

  /** In every run messages leave in order of delivery, one at a time, and no empty queue is popped. */
  lemma {:induction false} EveryRunSendsInOrder(es: seq<Event>) returns (p: nat)
    requires IsRun(es)
    ensures InOrder(After(es), Bodies(es), p)
    ensures forall e | Enabled(After(es), e) :: Safe(After(es), e)
  {
    if es == [] {
      p := 0;
    } else {
      var init, e := es[..|es| - 1], es[|es| - 1];
      p := EveryRunSendsInOrder(init);
      p := StepKeepsOrder(After(init), Bodies(init), p, e);
    }
  }

  lemma {:induction false} WireForwards(s: Sending, bodies: seq<Body>, p: nat) returns (n: nat)
    requires InOrder(s, bodies, p)
    ensures |bodies| - |s.queue| <= n <= |bodies| - |s.queue| + 1 && n <= |bodies|
    ensures Forwarded(s.wire) == bodies[..n] && EndOf(s.wire) == Closed
  {
    n := |bodies| - |s.queue|;
    WireIsForwarded(bodies[..n], Partly(s, p));
    if s.queue == [] {
      assert Forwarded([]) == [];
    } else {
      FramesTail(bodies, n);
      FrontIsForwarded(bodies[n], p);
      if p == |s.queue[0]| {
        OneMore(bodies, n);
        n := n + 1;
      }
    }
  }

  /** Whatever has gone out, the other side has received exactly the bodies whose frames went out completely. */
  lemma {:induction false} PeerReceivesInOrder(es: seq<Event>) returns (n: nat)
    requires IsRun(es)
    ensures n <= |Bodies(es)| && Forwarded(After(es).wire) == Bodies(es)[..n] && EndOf(After(es).wire) == Closed
    ensures |Bodies(es)| - |After(es).queue| <= n <= |Bodies(es)| - |After(es).queue| + 1
    ensures After(es).queue == [] ==> Forwarded(After(es).wire) == Bodies(es)
  {
    var p := EveryRunSendsInOrder(es);
    n := WireForwards(After(es), Bodies(es), p);
    assert n == |Bodies(es)| ==> Bodies(es)[..n] == Bodies(es);
  }
}
