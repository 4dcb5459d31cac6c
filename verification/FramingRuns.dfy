/** Whole connections: however a stream is cut into reads, and whichever of the two
    receivers takes it, the same packets come out. */
module FramingRuns {
  import opened Framing
  import D = DispatchLoop
  import I = IocpReceiver
  import A = AsioReceiver

  // What a receiver does read by read: parse, dispatch, and hold on to the rest.
  function Deliver(held: seq<byte>, chunks: seq<seq<byte>>, max: nat): Parsed
    decreases |chunks|
  {
    if chunks == [] then Parsed([], held)
    else
      var p := Parse(held + chunks[0], max);
      var q := Deliver(p.rest, chunks[1..], max);
      Parsed(p.packets + q.packets, q.rest)
  }

  /** Chunking invariance: reading chunk by chunk is parsing the whole stream at once. */
  lemma {:induction false} DeliverIsParse(held: seq<byte>, chunks: seq<seq<byte>>, max: nat)
    requires Parse(held, max) == Parsed([], held)
    ensures Deliver(held, chunks, max) == Parse(held + Flatten(chunks), max)
    decreases |chunks|
  {
    if chunks == [] {
      assert held + Flatten(chunks) == held;
    } else {
      var first, later := held + chunks[0], Flatten(chunks[1..]);
      assert held + Flatten(chunks) == first + later;
      ParseConcat(first, later, max);
      RestIsStuck(first, max);
      var p := Parse(first, max);
      DeliverIsParse(p.rest, chunks[1..], max);
      DeliverOne(held, chunks, max, p, Parse(p.rest + later, max));
    }
  }

  lemma DeliverOne(held: seq<byte>, chunks: seq<seq<byte>>, max: nat, p: Parsed, q: Parsed)
    requires chunks != [] && p == Parse(held + chunks[0], max) && q == Deliver(p.rest, chunks[1..], max)
    ensures Deliver(held, chunks, max) == Parsed(p.packets + q.packets, q.rest)
  {
  }

  /** Two cuts of the same stream deliver the same. */
  lemma CutsAgree(chunks: seq<seq<byte>>, chunks': seq<seq<byte>>, max: nat)
    requires Flatten(chunks) == Flatten(chunks')
    ensures Deliver([], chunks, max) == Deliver([], chunks', max)
  {
    DeliverIsParse([], chunks, max);
    DeliverIsParse([], chunks', max);
  }

  // Reads no longer than 74 bytes fit into the window whatever has arrived before.
  lemma {:induction false} SmallReadsFit(held: seq<byte>, chunks: seq<seq<byte>>)
    requires |held| < D.MAX_SIGNED
    requires forall c <- chunks :: |c| <= I.BUF_SIZE - (D.MAX_SIGNED - 1)
    ensures I.Fits(held, chunks)
    decreases |chunks|
  {
    if chunks != [] {
      assert chunks[0] in chunks;
      if D.Ends(held + chunks[0]) {
        SmallReadsFit(D.Left(held + chunks[0]), chunks[1..]);
      }
    }
  }

  /** Framing round trip: framed packets, laid end to end and cut into reads anyhow, are
      delivered again as they were sent, with nothing held back. */
  lemma SentIsDelivered(packets: seq<seq<byte>>, chunks: seq<seq<byte>>, max: nat)
    requires forall p <- packets :: Framed(p, max)
    requires Flatten(chunks) == Flatten(packets)
    ensures Deliver([], chunks, max) == Parsed(packets, [])
    ensures WellFormed(Flatten(chunks), max)
  {
    FramedRoundTrip(packets, max);
    DeliverIsParse([], chunks, max);
    assert [] + Flatten(chunks) == Flatten(packets);
  }

  // OVER_EXP(packet): as many bytes as byte 0 says are copied into the send buffer.
  class OverExp {
    const sendBuf: array<byte>
    var len: nat

    constructor (packet: array<byte>)
      requires packet.Length > 0
      requires 0 <= D.SignedHead(packet[0]) <= packet.Length
      ensures sendBuf.Length == I.BUF_SIZE && len == packet[0] as int
      ensures sendBuf[..len] == packet[..len]
    {
      sendBuf := new byte[I.BUF_SIZE](_ => 0);
      len := D.SignedHead(packet[0]);
      new;
      for i := 0 to len
        invariant len == packet[0] as int <= sendBuf.Length
        invariant sendBuf[..i] == packet[..i]
      {
        sendBuf[i] := packet[i];
      }
    }
  }

  // The bytes a sender hands over in one buffer: as many as the first of them says.
  predicate Sendable(packet: array<byte>)
    reads packet
  {
    packet.Length > 0 && 0 < D.SignedHead(packet[0]) <= packet.Length
  }

  function Content(packet: array<byte>): (sent: seq<byte>)
    requires Sendable(packet)
    reads packet
    ensures Framed(sent, D.MAX_SIGNED)
  {
    packet[..D.SignedHead(packet[0])]
  }

  ghost function Contents(packets: seq<array<byte>>): (sent: seq<seq<byte>>)
    requires forall p <- packets :: Sendable(p)
    reads packets
    ensures |sent| == |packets|
    ensures forall k :: 0 <= k < |sent| ==> packets[k] in packets && sent[k] == Content(packets[k])
  {
    seq(|packets|, k requires 0 <= k < |packets| && Sendable(packets[k]) reads packets =>
      Content(packets[k]))
  }

  lemma {:induction false} FlattenOneMore(front: seq<seq<byte>>, last: seq<byte>)
    ensures Flatten(front + [last]) == Flatten(front) + last
    decreases |front|
  {
    if front == [] {
      assert [last][1..] == [] && Flatten([last]) == last + [];
    } else {
      FlattenOneMore(front[1..], last);
      assert (front + [last])[1..] == front[1..] + [last];
      assert Flatten(front + [last]) == front[0] + (Flatten(front[1..]) + last);
    }
  }

  // do_send for each buffer in turn: what OVER_EXP holds goes onto the wire.
  method SendAll(packets: seq<array<byte>>) returns (wire: seq<byte>)
    requires forall p <- packets :: Sendable(p)
    ensures wire == Flatten(Contents(packets))
  {
    ghost var sent := Contents(packets);
    wire := [];
    for i := 0 to |packets|
      invariant wire == Flatten(sent[..i])
    {
      assert packets[i] in packets;
      var over := new OverExp(packets[i]);
      FlattenOneMore(sent[..i], sent[i]);
      assert sent[..i + 1] == sent[..i] + [sent[i]];
      wire := wire + over.sendBuf[..over.len];
    }
    assert sent[..|packets|] == sent;
  }

  // The wire, delivered in reads of the sizes given and, at the end, all that remains.
  function Cut(wire: seq<byte>, sizes: seq<nat>): (chunks: seq<seq<byte>>)
    decreases |sizes|
  {
    if sizes == [] then [wire]
    else
      var n := if sizes[0] <= |wire| then sizes[0] else |wire|;
      [wire[..n]] + Cut(wire[n..], sizes[1..])
  }

  lemma {:induction false} CutLosesNothing(wire: seq<byte>, sizes: seq<nat>)
    ensures Flatten(Cut(wire, sizes)) == wire
    decreases |sizes|
  {
    if sizes == [] {
      assert [wire][1..] == [];
    } else {
      var n := if sizes[0] <= |wire| then sizes[0] else |wire|;
      CutLosesNothing(wire[n..], sizes[1..]);
      assert Cut(wire, sizes)[1..] == Cut(wire[n..], sizes[1..]);
      assert wire == wire[..n] + wire[n..];
    }
  }

  /** Framing round trip through the real send and receive paths: buffers sent one after
      the other, cut into reads anyhow and received, are dispatched as they were sent, with
      nothing held back. */
  method SendAndReceive(packets: seq<array<byte>>, sizes: seq<nat>, r: I.Receiver)
    requires forall p <- packets :: Sendable(p)
    requires r.Valid() && r.Held() == [] && r.dispatched == [] && r.buf !in packets
    requires I.Fits([], Cut(Flatten(Contents(packets)), sizes))
    modifies r, r.buf
    ensures r.Valid() && r.dispatched == old(Contents(packets)) && r.Held() == []
  {
    ghost var sent := Contents(packets);
    var wire := SendAll(packets);
    var chunks := Cut(wire, sizes);
    CutLosesNothing(wire, sizes);
    FramedRoundTrip(sent, D.MAX_SIGNED);
    I.ReceivesExactly([], chunks);
    assert [] + Flatten(chunks) == wire;
    r.ReceiveAll(chunks);
  }

  // A rest the Asio loop does not hang on: it does not begin with a size byte of 0.
  predicate NoZeroHead(rest: seq<byte>) {
    rest == [] || rest[0] != 0
  }

  predicate TooLong(rest: seq<byte>) {
    rest != [] && rest[0] as int > A.MAX_PACKET
  }

  // One read of the connection, taken by the Asio receiver.
  method TakeRead(a: A.Assembler, chunks: seq<seq<byte>>, ghost goal: Parsed) returns (exited: bool)
    requires a.Valid() && chunks != [] && |chunks[0]| <= A.MAX_LENGTH
    requires LeadsTo(a.dispatched, a.Held() + Flatten(chunks), A.MAX_PACKET, goal) && NoZeroHead(goal.rest)
    modifies a, a.data, a.packet
    ensures exited ==> a.dispatched == goal.packets && TooLong(goal.rest)
    ensures !exited ==>
      a.Valid() && LeadsTo(a.dispatched, a.Held() + Flatten(chunks[1..]), A.MAX_PACKET, goal)
  {
    ghost var held, later := a.Held(), Flatten(chunks[1..]);
    ghost var p := Parse(held + chunks[0], A.MAX_PACKET);
    ReadOne(a.dispatched, held, chunks, A.MAX_PACKET, goal);
    if p.rest != [] && !GoodHead(p.rest[0], A.MAX_PACKET) {
      A.BadHeadEndsIt(a.dispatched + p.packets, p.rest + later, A.MAX_PACKET, goal);
    }
    FillRead(a, chunks[0]);
    A.LoopEndsExactly(held, chunks[0]);
    ghost var turns;
    exited, turns := a.OnRead(|chunks[0]|);
  }

  // The Asio receiver over a whole connection, each read first copied into `data_`. A
  // size byte above 200 ends the process there and then.
  method AsioReceiveAll(a: A.Assembler, chunks: seq<seq<byte>>) returns (exited: bool)
    requires a.Valid() && NoZeroHead(Parse(a.Held() + Flatten(chunks), A.MAX_PACKET).rest)
    requires forall c <- chunks :: |c| <= A.MAX_LENGTH
    modifies a, a.data, a.packet
    ensures
      var p := Parse(old(a.Held()) + Flatten(chunks), A.MAX_PACKET);
      && a.dispatched == old(a.dispatched) + p.packets
      && (exited <==> TooLong(p.rest))
      && (!exited ==> a.Valid() && a.Held() == p.rest)
  {
    ghost var whole := Parse(a.Held() + Flatten(chunks), A.MAX_PACKET);
    ghost var goal := Parsed(a.dispatched + whole.packets, whole.rest);
    var todo := chunks;
    while todo != []
      invariant a.Valid() && forall c <- todo :: |c| <= A.MAX_LENGTH
      invariant LeadsTo(a.dispatched, a.Held() + Flatten(todo), A.MAX_PACKET, goal)
      decreases |todo|
    {
      exited := TakeRead(a, todo, goal);
      if exited {
        return;
      }
      todo := todo[1..];
    }
    assert a.Held() + Flatten(todo) == a.Held();
    return false;
  }

  // What async_read_some does: the bytes of one read land at the front of `data_`.
  method FillRead(a: A.Assembler, bytes: seq<byte>)
    requires a.Valid() && |bytes| <= A.MAX_LENGTH
    modifies a.data
    ensures a.data[..|bytes|] == bytes
  {
    for i := 0 to |bytes|
      invariant a.data[..i] == bytes[..i]
    {
      a.data[i] := bytes[i];
    }
  }

  // The calls of the one server are the packets of the other exactly for well-formed streams.
  lemma SameCallsExactly(chunks: seq<seq<byte>>, s: seq<byte>)
    requires I.ReadsEnd([], chunks) && s == [] + Flatten(chunks)
    ensures I.Reads([], chunks).packets == Parse(s, A.MAX_PACKET).packets <==> WellFormed(s, D.MAX_SIGNED)
    ensures WellFormed(s, D.MAX_SIGNED) ==>
      && I.Reads([], chunks) == Parse(s, A.MAX_PACKET) == Deliver([], chunks, D.MAX_SIGNED)
      && !TooLong(Parse(s, A.MAX_PACKET).rest)
  {
    if WellFormed(s, D.MAX_SIGNED) {
      I.ReceivesExactly([], chunks);
      DeliverIsParse([], chunks, D.MAX_SIGNED);
      ParseAnyLimit(s, D.MAX_SIGNED, A.MAX_PACKET);
    } else {
      I.BadReadsHandNothing([], chunks, s);
      ParseFrames(s, A.MAX_PACKET);
      assert [] in I.Reads([], chunks).packets && [] !in Parse(s, A.MAX_PACKET).packets;
    }
  }

  method FreshReceive(r: I.Receiver, chunks: seq<seq<byte>>)
    requires r.Valid() && r.Held() == [] && r.dispatched == []
    requires I.ReadsEnd([], chunks) && I.Fits([], chunks)
    modifies r, r.buf
    ensures r.Valid() && Parsed(r.dispatched, r.Held()) == I.Reads([], chunks)
  {
    r.ReceiveAll(chunks);
  }

  method FreshAsioReceive(a: A.Assembler, chunks: seq<seq<byte>>, ghost p: Parsed) returns (exited: bool)
    requires a.Valid() && a.Held() == [] && a.dispatched == []
    requires p == Parse([] + Flatten(chunks), A.MAX_PACKET) && NoZeroHead(p.rest)
    requires forall c <- chunks :: |c| <= A.MAX_LENGTH
    modifies a, a.data, a.packet
    ensures a.dispatched == p.packets && (exited <==> TooLong(p.rest))
    ensures !exited ==> a.Valid() && a.Held() == p.rest
  {
    exited := AsioReceiveAll(a, chunks);
  }

  /** Reassembler equivalence: two fresh receivers of the two kinds, fed one stream under
      cuts of their own on which their loops end, dispatch the same exactly if every size
      byte is between 1 and 127; and then they hold the same bytes. */
  method BothReceive(r: I.Receiver, a: A.Assembler, chunks: seq<seq<byte>>, chunks': seq<seq<byte>>)
    returns (exited: bool)
    requires r.Valid() && r.Held() == [] && r.dispatched == []
    requires a.Valid() && a.Held() == [] && a.dispatched == []
    requires r.buf != a.data && r.buf != a.packet
    requires Flatten(chunks) == Flatten(chunks')
    requires I.ReadsEnd([], chunks) && I.Fits([], chunks)
    requires NoZeroHead(Parse(Flatten(chunks), A.MAX_PACKET).rest) && forall c <- chunks' :: |c| <= A.MAX_LENGTH
    modifies r, r.buf, a, a.data, a.packet
    ensures r.Valid() && (!exited ==> a.Valid())
    ensures r.dispatched == a.dispatched <==> WellFormed(Flatten(chunks), D.MAX_SIGNED)
    ensures WellFormed(Flatten(chunks), D.MAX_SIGNED) ==>
      !exited && r.Held() == a.Held() && r.dispatched == Deliver([], chunks, D.MAX_SIGNED).packets
  {
    ghost var s := Flatten(chunks);
    assert [] + Flatten(chunks) == s && [] + Flatten(chunks') == s;
    SameCallsExactly(chunks, s);
    FreshReceive(r, chunks);
    exited := FreshAsioReceive(a, chunks', Parse(s, A.MAX_PACKET));
  }

  /** The pure deliveries at the two limits agree exactly unless the stricter one stops at a
      size between 128 and 200 whose packet is complete. */
  lemma ReceiversAgree(chunks: seq<seq<byte>>, chunks': seq<seq<byte>>)
    requires Flatten(chunks) == Flatten(chunks')
    ensures
      Deliver([], chunks, D.MAX_SIGNED) == Deliver([], chunks', A.MAX_PACKET) <==>
      !Divides(Parse(Flatten(chunks), D.MAX_SIGNED).rest, D.MAX_SIGNED, A.MAX_PACKET)
  {
    DeliverIsParse([], chunks, D.MAX_SIGNED);
    DeliverIsParse([], chunks', A.MAX_PACKET);
    assert [] + Flatten(chunks) == Flatten(chunks);
    ParseLimitsExact(Flatten(chunks), D.MAX_SIGNED, A.MAX_PACKET);
  }
}
