/** The write queue and the read loop of a connection to an agent (src/network/agent_session.cc). */
module AgentSessions {
  import opened Bytes
  import opened Framing
  import opened Options
  import opened Sequences
  import opened Streams

  // ---------- writing ----------

  /** An outstanding write operation of the socket and how much of it has gone out. */
  datatype Flight = Flight(bytes: seq<Byte>, done: nat)

  /** Queued frames, outstanding writes, what went out, and the disconnect messages forwarded to the controller. */
  datatype Sending = Sending(queue: seq<seq<Byte>>, flights: seq<Flight>, wire: seq<Byte>, disconnects: nat)

  /** Starts writing the front of the queue. */
  function WriteStarted(s: Sending): Sending
    requires s.queue != []
  {
    s.(flights := s.flights + [Flight(s.queue[0], 0)])
  }

  function Delivered(s: Sending, body: Body): Sending {
    var s' := s.(queue := s.queue + [Frame(body)]);
    if s.queue == [] then WriteStarted(s') else s'
  }

  /** The handler of write `k`, called once the write is over; pops the queue before it looks at it again. */
  function WriteOver(s: Sending, k: nat, error: bool): Sending
    requires k < |s.flights| && (!error ==> s.queue != [])
  {
    var s' := s.(flights := Without(s.flights, k));
    if error then s'.(disconnects := s'.disconnects + 1)
    else
      var popped := s'.(queue := s'.queue[1..]);
      if popped.queue == [] then popped else WriteStarted(popped)
  }

  /** The socket takes `n` more bytes of write `k`. */
  function Transmitted(s: Sending, k: nat, n: nat): Sending
    requires k < |s.flights| && s.flights[k].done + n <= |s.flights[k].bytes|
  {
    var f := s.flights[k];
    s.(flights := s.flights[k := f.(done := f.done + n)], wire := s.wire + f.bytes[f.done..f.done + n])
  }

  /** A queued message under way. */
  datatype Writing = Writing(msg: ProtocolMessage, done: nat)

  class AgentSession {
    var writeQueue: seq<ProtocolMessage>
    var writes: seq<Writing>
    var wire: seq<Byte>
    var disconnects: nat

    ghost function Objects(): set<object>
      reads this
    {
      (set m | m in writeQueue) + (set w | w in writes :: w.msg)
    }

    ghost function Buffers(): set<object>
      reads this, Objects()
    {
      (set m | m in writeQueue :: m.data) + (set w | w in writes :: w.msg.data)
    }

    ghost predicate Valid()
      reads this, Objects()
    {
      && (forall m | m in writeQueue :: m.Valid())
      && forall w | w in writes :: w.msg.Valid()
    }

    ghost function State(): Sending
      requires Valid()
      reads this, Objects(), Buffers()
    {
      Sending(seq(|writeQueue|, i requires 0 <= i < |writeQueue| reads this, Objects(), Buffers()
                                requires Valid() => writeQueue[i].Contents()),
              seq(|writes|, i requires 0 <= i < |writes| reads this, Objects(), Buffers()
                            requires Valid() => Flight(writes[i].msg.Contents(), writes[i].done)),
              wire, disconnects)
    }

    constructor ()
      ensures Valid() && State() == Sending([], [], [], 0)
    {
      writeQueue, writes, wire, disconnects := [], [], [], 0;
    }

    method Deliver(body: Body)
      requires Valid()
      modifies this
      ensures Valid() && State() == Delivered(old(State()), body)
    {
      var writeInProgress := |writeQueue| != 0;
      Enqueue(body);
      if !writeInProgress {
        DoWrite();
      }
    }

    method Enqueue(body: Body)
      requires Valid()
      modifies this`writeQueue
      ensures Valid() && writeQueue != []
      ensures State() == old(State()).(queue := old(State()).queue + [Frame(body)])
    {
      FramedIsFrame(body);
      var msg := new ProtocolMessage.FromBytes(body);
      writeQueue := writeQueue + [msg];
      assert State().queue == old(State()).queue + [Frame(body)];
    }

    method DoWrite()
      requires Valid() && writeQueue != []
      modifies this`writes
      ensures Valid() && State() == WriteStarted(old(State()))
    {
      writes := writes + [Writing(writeQueue[0], 0)];
    }

    /** The socket reports that write `k` is over. */
    method RemoveWrite(k: nat)
      requires Valid() && k < |writes|
      modifies this`writes
      ensures Valid() && State() == old(State()).(flights := Without(old(State()).flights, k))
    {
      writes := writes[..k] + writes[k + 1..];
      assert State().flights == Without(old(State()).flights, k);
    }

    method PopFront()
      requires Valid() && writeQueue != []
      modifies this`writeQueue
      ensures Valid() && State() == old(State()).(queue := old(State()).queue[1..])
    {
      writeQueue := writeQueue[1..];
      assert State().queue == old(State()).queue[1..];
    }

    /** Forwards a disconnect message in the name of the agent. */
    method GenerateDisconnectMsg()
      requires Valid()
      modifies this`disconnects
      ensures Valid() && State() == old(State()).(disconnects := old(State()).disconnects + 1)
    {
      disconnects := disconnects + 1;
    }

    method WriteHandler(k: nat, error: bool)
      requires Valid() && k < |writes| && (!error ==> writeQueue != [])
      modifies this
      ensures Valid() && State() == WriteOver(old(State()), k, error)
    {
      RemoveWrite(k);
      if !error {
        PopFront();
        if |writeQueue| != 0 {
          DoWrite();
        }
      } else {
        GenerateDisconnectMsg();
      }
    }
  }

  // ---------- reading ----------

  /**
   * How reading comes to an end: the connection does and a disconnect message is forwarded, the buffer for a
   * body is refused by an exception, or it is overrun and nothing is said any more.
   */
  datatype End = Closed | Thrown | Overrun

  datatype Incoming = Complete(body: Body, rest: seq<Byte>) | Ended(end: End)

  /** One header and body. */
  function ReadFrame(bs: seq<Byte>): Incoming {
    match ReadBytes(HEADER_LENGTH, bs)
    case Short => Ended(Closed)
    case Read(header, rest) =>
      HeaderBound(header);
      HeaderOutcome(FromBig(header));
      match OutcomeFor(Widened(FromBig(header)))
      case Refused => Ended(Thrown)
      case TooSmall(_) => Ended(Overrun)
      case Room =>
        match ReadBytes(FromBig(header), rest)
        case Short => Ended(Closed)
        case Read(body, rest') => Complete(body, rest')
  }

  /** The bodies that are forwarded before reading ends. */
  function Forwarded(bs: seq<Byte>): seq<Body>
    decreases |bs|
  {
    match ReadFrame(bs)
    case Ended(_) => []
    case Complete(body, rest) => [body] + Forwarded(rest)
  }

  function EndOf(bs: seq<Byte>): End
    decreases |bs|
  {
    match ReadFrame(bs)
    case Ended(end) => end
    case Complete(_, rest) => EndOf(rest)
  }

  /** Fills part of the buffer of the message that is being read. */
  method Fill(msg: ProtocolMessage, at: nat, bs: seq<Byte>)
    requires at + |bs| <= msg.data.Length
    modifies msg.data
    ensures msg.data[at..][..|bs|] == bs && msg.data[..at] == old(msg.data[..at])
  {
    forall i | 0 <= i < |bs| {
      msg.data[at + i] := bs[i];
    }
    assert msg.data[at..][..|bs|] == bs;
  }

  method ReadHeader(input: Input, msg: ProtocolMessage) returns (o: Option<Outcome>)
    requires msg.Valid()
    modifies input, msg, msg.data, msg.statData
    ensures msg.data == msg.statData || msg.data == old(msg.data) || fresh(msg.data)
    ensures var h := ReadBytes(HEADER_LENGTH, old(input.rest));
      if h.Short? then o.None?
      else
        && o == Some(OutcomeFor(Widened(FromBig(h.value)))) && input.rest == h.rest
        && (o.value.Room? ==> msg.Valid() && msg.bodyLength == FromBig(h.value))
  {
    var header := input.Take(HEADER_LENGTH);
    if header.None? {
      return None;
    }
    Fill(msg, 0, header.value);
    assert msg.data[..HEADER_LENGTH] == header.value;
    var outcome := msg.DecodeHeader();
    return Some(outcome);
  }

  method ReadBody(input: Input, msg: ProtocolMessage) returns (body: Option<seq<Byte>>)
    requires msg.Valid()
    modifies input, msg.data
    ensures msg.Valid()
    ensures Got(ReadBytes(msg.bodyLength, old(input.rest)), body, input.rest)
  {
    var bytes := input.Take(msg.bodyLength);
    if bytes.None? {
      return None;
    }
    Fill(msg, HEADER_LENGTH, bytes.value);
    return Some(msg.data[HEADER_LENGTH..][..msg.bodyLength]);
  }

  method ReadOne(input: Input, msg: ProtocolMessage) returns (f: Incoming)
    requires msg.Valid()
    modifies input, msg, msg.data, msg.statData
    ensures msg.data == msg.statData || msg.data == old(msg.data) || fresh(msg.data)
    ensures f == ReadFrame(old(input.rest))
    ensures f.Complete? ==> msg.Valid() && input.rest == f.rest
  {
    ghost var start := input.rest;
    var o := ReadHeader(input, msg);
    match o
    case None => return Ended(Closed);
    case Some(Refused) => return Ended(Thrown);
    case Some(TooSmall(_)) => return Ended(Overrun);
    case Some(Room) =>
      HeaderBound(ReadBytes(HEADER_LENGTH, start).value);
      HeaderOutcome(FromBig(ReadBytes(HEADER_LENGTH, start).value));
      var body := ReadBody(input, msg);
      if body.None? {
        return Ended(Closed);
      }
      return Complete(body.value, input.rest);
  }

  lemma {:induction false} ForwardOne(bodies: seq<Body>, bs: seq<Byte>)
    ensures var f := ReadFrame(bs);
      if f.Ended? then Forwarded(bs) == [] && EndOf(bs) == f.end
      else bodies + Forwarded(bs) == bodies + [f.body] + Forwarded(f.rest) && EndOf(bs) == EndOf(f.rest)
  {
    if ReadFrame(bs).Complete? {
      OneThenRest(bodies, ReadFrame(bs).body, Forwarded(ReadFrame(bs).rest));
    }
  }

  lemma {:induction false} OneThenRest(bodies: seq<Body>, b: Body, rest: seq<Body>)
    ensures bodies + ([b] + rest) == bodies + [b] + rest
  {
  }

  /** Reads headers and bodies in turn for as long as there are any. */
  method ReadLoop(input: Input) returns (bodies: seq<Body>, end: End)
    modifies input
    ensures bodies == Forwarded(old(input.rest)) && end == EndOf(old(input.rest))
  {
    var msg := new ProtocolMessage();
    bodies := [];
    while true
      invariant msg.Valid() && fresh(msg) && fresh(msg.data) && fresh(msg.statData)
      invariant bodies + Forwarded(input.rest) == Forwarded(old(input.rest))
      invariant EndOf(input.rest) == EndOf(old(input.rest))
      decreases |input.rest|
    {
      ForwardOne(bodies, input.rest);
      var f := ReadOne(input, msg);
      if f.Ended? {
        return bodies, f.end;
      }
      bodies := bodies + [f.body];
    }
  }
}
