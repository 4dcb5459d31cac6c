/** Length-prefixed packets: byte 0 of a packet is its length. The pure parse of a byte
    stream, against which both receivers are proved. */
module Framing {

  newtype byte = b: int | 0 <= b < 256

  datatype Parsed = Parsed(packets: seq<seq<byte>>, rest: seq<byte>)

  // A head the parse can go past: a length between 1 and `max`.
  predicate GoodHead(b: byte, max: nat) {
    1 <= b as int <= max
  }

  // Cuts complete packets off the front; stops at an incomplete packet or a bad head.
  function Parse(s: seq<byte>, max: nat): (p: Parsed)
    ensures |p.rest| <= |s|
    decreases |s|
  {
    if s == [] || !GoodHead(s[0], max) || s[0] as int > |s| then Parsed([], s)
    else
      var p := Parse(s[s[0] as int..], max);
      Parsed([s[..s[0] as int]] + p.packets, p.rest)
  }

  // Every head the parse meets is good: what is left over is a packet not yet complete.
  predicate WellFormed(s: seq<byte>, max: nat) {
    var rest := Parse(s, max).rest;
    rest == [] || GoodHead(rest[0], max)
  }

  // Leftover bytes: nothing, or the beginning of one packet.
  predicate Pending(s: seq<byte>, max: nat) {
    s == [] || (GoodHead(s[0], max) && |s| < s[0] as int)
  }

  function Flatten(chunks: seq<seq<byte>>): seq<byte> {
    if chunks == [] then [] else chunks[0] + Flatten(chunks[1..])
  }

  // A packet as the senders frame it.
  predicate Framed(packet: seq<byte>, max: nat) {
    packet != [] && packet[0] as int == |packet| && |packet| <= max
  }

  /** Parsing may stop and go on: the packets of a + b are those of a, then those of what
      a left over followed by b. */
  lemma {:induction false} ParseConcat(a: seq<byte>, b: seq<byte>, max: nat)
    ensures
      var p := Parse(a, max);
      var q := Parse(p.rest + b, max);
      Parse(a + b, max) == Parsed(p.packets + q.packets, q.rest)
    decreases |a|
  {
    if a == [] || !GoodHead(a[0], max) || a[0] as int > |a| {
      assert Parse(a, max) == Parsed([], a);
    } else {
      var n := a[0] as int;
      ParseConcat(a[n..], b, max);
      assert (a + b)[..n] == a[..n];
      assert (a + b)[n..] == a[n..] + b;
    }
  }

  /** The parse loses nothing: the packets in order, then the rest, are the stream. */
  lemma {:induction false} ParseConserves(s: seq<byte>, max: nat)
    ensures Flatten(Parse(s, max).packets) + Parse(s, max).rest == s
    decreases |s|
  {
    if s == [] || !GoodHead(s[0], max) || s[0] as int > |s| {
      assert Flatten([]) + s == s;
    } else {
      var n := s[0] as int;
      ParseConserves(s[n..], max);
      var q := Parse(s[n..], max);
      var packets := Parse(s, max).packets;
      assert packets[0] == s[..n] && packets[1..] == q.packets;
      assert Flatten(packets) + q.rest == s[..n] + (Flatten(q.packets) + q.rest);
      assert s == s[..n] + s[n..];
    }
  }

  // Every packet it cuts off is framed: its first byte is its length.
  lemma {:induction false} ParseFrames(s: seq<byte>, max: nat)
    ensures forall p <- Parse(s, max).packets :: Framed(p, max)
    decreases |s|
  {
    if !(s == [] || !GoodHead(s[0], max) || s[0] as int > |s|) {
      ParseFrames(s[s[0] as int..], max);
    }
  }

  // What is left over holds no complete packet, and parsing it again finds none.
  lemma {:induction false} RestIsStuck(s: seq<byte>, max: nat)
    ensures
      var rest := Parse(s, max).rest;
      && Parse(rest, max) == Parsed([], rest)
      && (rest != [] ==> !GoodHead(rest[0], max) || |rest| < rest[0] as int)
    decreases |s|
  {
    if !(s == [] || !GoodHead(s[0], max) || s[0] as int > |s|) {
      RestIsStuck(s[s[0] as int..], max);
    }
  }

  lemma BadHeadStays(rest: seq<byte>, b: seq<byte>, max: nat)
    ensures rest != [] && !GoodHead(rest[0], max) ==> Parse(rest + b, max) == Parsed([], rest + b)
  {
  }

  // Having dispatched `log` with `s` still unparsed leads to dispatching `goal.packets`
  // in all and to keeping `goal.rest`.
  ghost predicate LeadsTo(log: seq<seq<byte>>, s: seq<byte>, max: nat, goal: Parsed) {
    log + Parse(s, max).packets == goal.packets && Parse(s, max).rest == goal.rest
  }

  lemma DispatchOne(log: seq<seq<byte>>, s: seq<byte>, max: nat, goal: Parsed)
    requires LeadsTo(log, s, max, goal) && s != [] && GoodHead(s[0], max) && s[0] as int <= |s|
    ensures LeadsTo(log + [s[..s[0] as int]], s[s[0] as int..], max, goal)
  {
  }

  // A stricter receiver agrees with a laxer one wherever it finds no fault.
  lemma {:induction false} ParseAnyLimit(s: seq<byte>, small: nat, large: nat)
    requires small <= large && WellFormed(s, small)
    ensures Parse(s, small) == Parse(s, large) && WellFormed(s, large)
    decreases |s|
  {
    if s != [] && GoodHead(s[0], small) && s[0] as int <= |s| {
      ParseAnyLimit(s[s[0] as int..], small, large);
    }
  }

  // A packet that is complete for the laxer receiver and too long for the stricter one.
  predicate Divides(rest: seq<byte>, small: nat, large: nat) {
    rest != [] && !GoodHead(rest[0], small) && GoodHead(rest[0], large) && rest[0] as int <= |rest|
  }

  // Two limits parse a stream alike exactly if the stricter one does not stop at such.
  lemma {:induction false} ParseLimitsExact(s: seq<byte>, small: nat, large: nat)
    requires small <= large
    ensures Parse(s, small) == Parse(s, large) <==> !Divides(Parse(s, small).rest, small, large)
    decreases |s|
  {
    if s != [] && GoodHead(s[0], small) && s[0] as int <= |s| {
      var n := s[0] as int;
      ParseLimitsExact(s[n..], small, large);
      var p, q := Parse(s[n..], small), Parse(s[n..], large);
      assert ([s[..n]] + p.packets)[1..] == p.packets && ([s[..n]] + q.packets)[1..] == q.packets;
    }
  }

  /** Framing round trip: framed packets laid end to end parse back to themselves. */
  lemma {:induction false} FramedRoundTrip(packets: seq<seq<byte>>, max: nat)
    requires forall p <- packets :: Framed(p, max)
    ensures Parse(Flatten(packets), max) == Parsed(packets, [])
    decreases |packets|
  {
    if packets != [] {
      var p, s := packets[0], Flatten(packets[1..]);
      FramedRoundTrip(packets[1..], max);
      assert p in packets;
      assert (p + s)[..|p|] == p && (p + s)[|p|..] == s;
    }
  }

  // Dispatching the beginning of what arrives, and going on from what it leaves over.
  lemma DispatchFirst(log: seq<seq<byte>>, first: seq<byte>, later: seq<byte>, max: nat, goal: Parsed)
    requires LeadsTo(log, first + later, max, goal)
    ensures var p := Parse(first, max); LeadsTo(log + p.packets, p.rest + later, max, goal)
  {
    ParseConcat(first, later, max);
    Regroup(log, Parse(first, max).packets, Parse(Parse(first, max).rest + later, max).packets);
  }

  lemma Regroup(a: seq<seq<byte>>, b: seq<seq<byte>>, c: seq<seq<byte>>)
    ensures a + (b + c) == (a + b) + c
  {
  }

  // One read: dispatch what held bytes and the read complete, keep what they leave over.
  lemma ReadOne(log: seq<seq<byte>>, held: seq<byte>, chunks: seq<seq<byte>>, max: nat, goal: Parsed)
    requires chunks != [] && LeadsTo(log, held + Flatten(chunks), max, goal)
    ensures
      var p := Parse(held + chunks[0], max);
      LeadsTo(log + p.packets, p.rest + Flatten(chunks[1..]), max, goal)
  {
    assert held + Flatten(chunks) == held + chunks[0] + Flatten(chunks[1..]);
    DispatchFirst(log, held + chunks[0], Flatten(chunks[1..]), max, goal);
  }
}
