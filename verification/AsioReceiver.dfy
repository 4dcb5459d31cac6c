/** The Asio server's receive path: a side buffer for the packet being built, the size it
    is going to have, and how much of it has arrived. */
module AsioReceiver {
  import opened Framing

  const MAX_LENGTH: nat := 1024
  const MAX_PACKET: nat := 200

  class Assembler {
    const data: array<byte>
    const packet: array<byte>
    var currPacketSize: nat
    var prevDataSize: nat
    ghost var dispatched: seq<seq<byte>>

    // Both counters are zero, or a packet of legal size has begun and is not complete.
    ghost predicate Valid()
      reads this, packet
    {
      && data.Length == MAX_LENGTH && packet.Length == MAX_LENGTH && data != packet
      && (currPacketSize == prevDataSize == 0 ||
          (0 < prevDataSize < currPacketSize <= MAX_PACKET && packet[0] as int == currPacketSize))
    }

    ghost function Held(): (s: seq<byte>)
      requires Valid()
      reads this, packet
      ensures Pending(s, MAX_PACKET)
    {
      packet[..prevDataSize]
    }

    constructor ()
      ensures Valid() && fresh(data) && fresh(packet) && Held() == [] && dispatched == []
    {
      data := new byte[MAX_LENGTH](_ => 0);
      packet := new byte[MAX_LENGTH](_ => 0);
      currPacketSize, prevDataSize, dispatched := 0, 0, [];
    }

    // memcpy of n received bytes behind what the packet buffer already holds.
    method Append(pos: nat, n: nat)
      requires data != packet && pos + n <= data.Length && prevDataSize + n <= packet.Length
      modifies packet
      ensures packet[..prevDataSize + n] == old(packet[..prevDataSize]) + data[pos..pos + n]
    {
      for i := 0 to n
        invariant packet[..prevDataSize + i] == old(packet[..prevDataSize]) + data[pos..pos + i]
      {
        packet[prevDataSize + i] := data[pos + i];
      }
    }

    // The packet is complete: its missing bytes are copied and it is dispatched.
    method Complete(pos: nat, length: nat)
      requires data != packet && data.Length == packet.Length == MAX_LENGTH && pos <= length <= MAX_LENGTH
      requires prevDataSize <= currPacketSize <= MAX_PACKET && currPacketSize - prevDataSize <= length - pos
      modifies this`currPacketSize, this`prevDataSize, this`dispatched, packet
      ensures currPacketSize == prevDataSize == 0
      ensures
        var need := old(currPacketSize - prevDataSize);
        dispatched == old(dispatched) + [old(packet[..prevDataSize]) + data[pos..pos + need]]
    {
      var need := currPacketSize - prevDataSize;
      Append(pos, need);
      assert prevDataSize + need == currPacketSize;
      dispatched := dispatched + [packet[..currPacketSize]];
      currPacketSize := 0;
      prevDataSize := 0;
    }

    // The packet stays incomplete: all that is left of the read is kept.
    method Keep(pos: nat, length: nat)
      requires data != packet && data.Length == packet.Length == MAX_LENGTH && length <= MAX_LENGTH && pos < length
      requires prevDataSize + (length - pos) < currPacketSize <= MAX_PACKET
      requires (packet[..prevDataSize] + data[pos..length])[0] as int == currPacketSize
      modifies this`prevDataSize, packet
      ensures Valid() && Held() == old(packet[..prevDataSize]) + data[pos..length]
    {
      ghost var s := packet[..prevDataSize] + data[pos..length];
      Append(pos, length - pos);
      prevDataSize := prevDataSize + (length - pos);
      assert packet[..prevDataSize] == s;
      assert packet[0] == s[0];
    }

    // One turn of the loop, once the size of the packet being built is known.
    method Build(pos: nat, length: nat) returns (next: nat)
      requires data != packet && data.Length == packet.Length == MAX_LENGTH && length <= MAX_LENGTH && pos < length
      requires prevDataSize <= currPacketSize <= MAX_PACKET
      requires (packet[..prevDataSize] + data[pos..length])[0] as int == currPacketSize
      modifies this`currPacketSize, this`prevDataSize, this`dispatched, packet
      ensures Valid()
      ensures
        var b := Built(data[..length], pos, old(currPacketSize), old(packet[..prevDataSize]));
        next == b.pos && currPacketSize == b.size && Held() == b.held && dispatched == old(dispatched) + b.log
    {
      var need := currPacketSize - prevDataSize;
      assert data[pos..length] == data[..length][pos..];
      if need <= length - pos {
        assert data[pos..pos + need] == data[..length][pos..pos + need];
        Complete(pos, length);
        next := pos + need;
      } else {
        Keep(pos, length);
        next := length;
      }
    }

    // One turn of the loop, from where the first `turns` of them have led.
    method GoRound(pos: nat, length: nat, ghost held: seq<byte>, ghost turns: nat, ghost before: seq<seq<byte>>)
      returns (next: nat, exited: bool)
      requires Valid() && pos < length <= MAX_LENGTH && Pending(held, MAX_PACKET)
      requires At(After(held, data[..length], turns), pos, currPacketSize, Held(), before, dispatched)
      modifies this`currPacketSize, this`prevDataSize, this`dispatched, packet
      ensures
        var c := After(held, data[..length], turns + 1);
        && c.exited == exited && dispatched == before + c.log
        && (!exited ==> Valid() && next <= length && At(c, next, currPacketSize, Held(), before, dispatched))
    {
      ghost var c, read := After(held, data[..length], turns), data[..length];
      assert read[pos] == data[pos] && read[pos..] == data[pos..length];
      if currPacketSize == 0 {
        currPacketSize := data[pos] as int;
        if data[pos] as int > MAX_PACKET {
          return pos, true;
        }
      }
      TurnBuilds(read, c, currPacketSize, before);
      assert (packet[..prevDataSize] + data[pos..length])[0] as int == currPacketSize;
      next := Build(pos, length);
      return next, false;
    }

    // The completion handler of async_read_some for a read of `length` bytes on which its
    // loop ends. A size byte above 200 ends the process. `turns` is how often the loop went
    // round.
    method OnRead(length: nat) returns (exited: bool, ghost turns: nat)
      requires Valid() && length <= MAX_LENGTH && Ends(Held(), data[..length])
      modifies this`currPacketSize, this`prevDataSize, this`dispatched, packet
      ensures
        var c := After(old(Held()), data[..length], turns);
        && !Going(data[..length], c) && c.exited == exited
        && dispatched == old(dispatched) + c.log
        && (!exited ==> Valid() && Held() == c.held)
      ensures
        var p := Parse(old(Held()) + data[..length], MAX_PACKET);
        && dispatched == old(dispatched) + p.packets
        && (exited <==> p.rest != [] && p.rest[0] as int > MAX_PACKET)
        && (!exited ==> Valid() && Held() == p.rest)
    {
      ghost var held, read, before := Held(), data[..length], dispatched;
      turns := 0;
      var pos: nat := 0;
      while pos < length
        invariant Valid() && pos <= length
        invariant At(After(held, read, turns), pos, currPacketSize, Held(), before, dispatched)
        decreases length - turns
      {
        InTurns(held, read, turns);
        pos, exited := GoRound(pos, length, held, turns, before);
        turns := turns + 1;
        if exited {
          EndsAtParse(held, read, turns);
          return true, turns;
        }
      }
      EndsAtParse(held, read, turns);
      return false, turns;
    }
  }

  lemma BadHeadEndsIt(log: seq<seq<byte>>, s: seq<byte>, max: nat, goal: Parsed)
    requires LeadsTo(log, s, max, goal) && s != [] && !GoodHead(s[0], max)
    ensures log == goal.packets && s == goal.rest
  {
  }

  lemma HeldIsStuck(s: seq<byte>, max: nat)
    requires Pending(s, max)
    ensures Parse(s, max) == Parsed([], s)
  {
  }

  lemma NothingInFront(a: seq<byte>, b: seq<byte>)
    requires |a| == 0
    ensures a + b == b
  {
  }

  lemma NothingBehind(a: seq<byte>, b: seq<byte>)
    requires |b| == 0
    ensures a + b == a
  {
  }

  lemma SplitWithin(a: seq<byte>, b: seq<byte>, n: nat)
    requires |a| <= n <= |a| + |b|
    ensures (a + b)[..n] == a + b[..n - |a|] && (a + b)[n..] == b[n - |a|..]
  {
  }

  // ------------------------------------------------- when the loop ends

  // The loop's variables, with the packet being built as its bytes so far.
  datatype Progress = Progress(pos: nat, size: nat, held: seq<byte>, log: seq<seq<byte>>, exited: bool)

  predicate Sound(data: seq<byte>, c: Progress) {
    && c.pos <= |data|
    && if c.size == 0 then c.held == []
       else 0 < |c.held| < c.size <= MAX_PACKET && c.held[0] as int == c.size
  }

  predicate Going(data: seq<byte>, c: Progress) {
    c.pos < |data| && !c.exited
  }

  // A packet of known size: completed and handed over, or all that is left of the read kept.
  function Built(data: seq<byte>, pos: nat, size: nat, held: seq<byte>): Progress
    requires pos <= |data| && |held| <= size
  {
    var need := size - |held|;
    if need <= |data| - pos then Progress(pos + need, 0, [], [held + data[pos..pos + need]], false)
    else Progress(|data|, size, held + data[pos..], [], false)
  }

  function Turn(data: seq<byte>, c: Progress): (c': Progress)
    requires Sound(data, c) && Going(data, c)
    ensures c'.exited || Sound(data, c')
  {
    var size := if c.size == 0 then data[c.pos] as int else c.size;
    if c.size == 0 && size > MAX_PACKET then c.(size := size, exited := true)
    else
      var b := Built(data, c.pos, size, c.held);
      b.(log := c.log + b.log)
  }

  lemma TurnBuilds(data: seq<byte>, c: Progress, size: nat, before: seq<seq<byte>>)
    requires Sound(data, c) && Going(data, c)
    requires size == (if c.size == 0 then data[c.pos] as int else c.size) && size <= MAX_PACKET
    ensures
      var b, c' := Built(data, c.pos, size, c.held), Turn(data, c);
      c' == b.(log := c'.log) && before + c'.log == (before + c.log) + b.log
  {
  }

  // The loop's variables stand where c says, with `before` dispatched by earlier reads.
  ghost predicate At(c: Progress, pos: nat, size: nat, held: seq<byte>, before: seq<seq<byte>>, log: seq<seq<byte>>) {
    c.pos == pos && c.size == size && c.held == held && log == before + c.log && !c.exited
  }

  // After n turns on one read, or fewer if the loop stops.
  function After(held: seq<byte>, data: seq<byte>, n: nat): (c: Progress)
    requires Pending(held, MAX_PACKET)
    ensures c.exited || Sound(data, c)
  {
    if n == 0 then Progress(0, if held == [] then 0 else held[0] as int, held, [], false)
    else
      var c := After(held, data, n - 1);
      if Going(data, c) then Turn(data, c) else c
  }

  ghost predicate Ends(held: seq<byte>, data: seq<byte>)
    requires Pending(held, MAX_PACKET)
  {
    exists n: nat :: !Going(data, After(held, data, n))
  }

  // The rest that a stream is parsed to, as seen from the middle of the loop.
  ghost predicate Heads(data: seq<byte>, c: Progress, rest: seq<byte>)
    requires Sound(data, c)
  {
    Parse(c.held + data[c.pos..], MAX_PACKET).rest == rest
  }

  lemma BuiltHeads(data: seq<byte>, pos: nat, size: nat, held: seq<byte>, rest: seq<byte>)
    requires pos < |data| && |held| < size <= MAX_PACKET
    requires Parse(held + data[pos..], MAX_PACKET).rest == rest && (held + data[pos..])[0] as int == size
    ensures var b := Built(data, pos, size, held); Parse(b.held + data[b.pos..], MAX_PACKET).rest == rest
  {
    var goal := Parse(held + data[pos..], MAX_PACKET);
    assert [] + goal.packets == goal.packets;
    BuiltLeads([], data, pos, size, held, goal);
  }

  lemma TurnHeads(data: seq<byte>, c: Progress, rest: seq<byte>)
    requires Sound(data, c) && Going(data, c) && Heads(data, c, rest)
    ensures
      var c' := Turn(data, c);
      && (c'.exited ==> rest != [] && rest[0] as int > MAX_PACKET)
      && (!c'.exited ==> Heads(data, c', rest))
      && (!c'.exited && c'.pos == c.pos ==> rest != [] && rest[0] == 0)
  {
    var s := c.held + data[c.pos..];
    assert s[0] as int == if c.size == 0 then data[c.pos] as int else c.size;
    if GoodHead(s[0], MAX_PACKET) {
      BuiltHeads(data, c.pos, s[0] as int, c.held, rest);
    } else {
      assert c.held == [] && rest == s;
    }
  }

  // n turns have led the loop to where the parse is going too.
  ghost predicate OnCourse(data: seq<byte>, c: Progress, rest: seq<byte>, n: nat)
    requires c.exited || Sound(data, c)
  {
    && (if c.exited then rest != [] && rest[0] as int > MAX_PACKET else Heads(data, c, rest))
    && (rest == [] || rest[0] != 0 ==> !Going(data, c) || c.pos >= n)
  }

  lemma TurnOnCourse(data: seq<byte>, c: Progress, rest: seq<byte>, n: nat)
    requires Sound(data, c) && Going(data, c) && OnCourse(data, c, rest, n)
    ensures OnCourse(data, Turn(data, c), rest, n + 1)
  {
    TurnHeads(data, c, rest);
    assert Turn(data, c).pos >= c.pos;
  }

  lemma {:induction false} StaysOnCourse(held: seq<byte>, data: seq<byte>, rest: seq<byte>, n: nat)
    requires Pending(held, MAX_PACKET) && rest == Parse(held + data, MAX_PACKET).rest
    ensures OnCourse(data, After(held, data, n), rest, n)
  {
    if n == 0 {
      assert data[0..] == data;
    } else {
      StaysOnCourse(held, data, rest, n - 1);
      var c := After(held, data, n - 1);
      if Going(data, c) {
        TurnOnCourse(data, c, rest, n - 1);
      }
    }
  }

  // A loop that is going to end is never further on than it has gone round.
  lemma InTurns(held: seq<byte>, data: seq<byte>, n: nat)
    requires Pending(held, MAX_PACKET) && Ends(held, data) && Going(data, After(held, data, n))
    ensures n < |data|
  {
    LoopEndsExactly(held, data);
    StaysOnCourse(held, data, Parse(held + data, MAX_PACKET).rest, n);
  }

  // What has been handed over leads to the packets of the parse.
  ghost predicate Leads(data: seq<byte>, c: Progress, goal: Parsed)
    requires c.exited || Sound(data, c)
  {
    if c.exited then c.log == goal.packets
    else LeadsTo(c.log, c.held + data[c.pos..], MAX_PACKET, goal)
  }

  lemma CompleteLeads(log: seq<seq<byte>>, held: seq<byte>, data: seq<byte>, pos: nat, need: nat, goal: Parsed)
    requires pos < |data| && pos + need <= |data|
    requires LeadsTo(log, held + data[pos..], MAX_PACKET, goal)
    requires (held + data[pos..])[0] as int == |held| + need && 0 < |held| + need <= MAX_PACKET
    ensures LeadsTo(log + [held + data[pos..pos + need]], [] + data[pos + need..], MAX_PACKET, goal)
  {
    var s, size := held + data[pos..], |held| + need;
    SplitWithin(held, data[pos..], size);
    DispatchOne(log, s, MAX_PACKET, goal);
    assert data[pos..][..need] == data[pos..pos + need];
    NothingInFront([], data[pos + need..]);
  }

  lemma BuiltLeads(log: seq<seq<byte>>, data: seq<byte>, pos: nat, size: nat, held: seq<byte>, goal: Parsed)
    requires pos < |data| && |held| < size <= MAX_PACKET
    requires LeadsTo(log, held + data[pos..], MAX_PACKET, goal) && (held + data[pos..])[0] as int == size
    ensures var b := Built(data, pos, size, held); LeadsTo(log + b.log, b.held + data[b.pos..], MAX_PACKET, goal)
  {
    if size - |held| <= |data| - pos {
      CompleteLeads(log, held, data, pos, size - |held|, goal);
    } else {
      NothingBehind(held + data[pos..], data[|data|..]);
      assert log + [] == log;
    }
  }

  lemma TurnLeads(data: seq<byte>, c: Progress, goal: Parsed)
    requires Sound(data, c) && Going(data, c) && Leads(data, c, goal)
    requires goal.rest == [] || goal.rest[0] != 0
    ensures Leads(data, Turn(data, c), goal)
  {
    var s := c.held + data[c.pos..];
    assert s[0] as int == if c.size == 0 then data[c.pos] as int else c.size;
    if GoodHead(s[0], MAX_PACKET) {
      BuiltLeads(c.log, data, c.pos, s[0] as int, c.held, goal);
    } else {
      BadHeadEndsIt(c.log, s, MAX_PACKET, goal);
    }
  }

  lemma {:induction false} StaysLeading(held: seq<byte>, data: seq<byte>, goal: Parsed, n: nat)
    requires Pending(held, MAX_PACKET) && goal == Parse(held + data, MAX_PACKET)
    requires goal.rest == [] || goal.rest[0] != 0
    ensures Leads(data, After(held, data, n), goal)
  {
    if n == 0 {
      assert data[0..] == data;
    } else {
      StaysLeading(held, data, goal, n - 1);
      var c := After(held, data, n - 1);
      if Going(data, c) {
        TurnLeads(data, c, goal);
      }
    }
  }

  /** A loop that has ended has handed over exactly the packets of the parse; it has ended the
      process exactly if the parse stops at a size above 200, and holds its rest otherwise. */
  lemma EndsAtParse(held: seq<byte>, data: seq<byte>, n: nat)
    requires Pending(held, MAX_PACKET) && !Going(data, After(held, data, n))
    ensures
      var c, p := After(held, data, n), Parse(held + data, MAX_PACKET);
      && c.log == p.packets
      && (c.exited <==> p.rest != [] && p.rest[0] as int > MAX_PACKET)
      && (!c.exited ==> c.held == p.rest)
  {
    var c, p := After(held, data, n), Parse(held + data, MAX_PACKET);
    LoopEndsExactly(held, data);
    StaysOnCourse(held, data, p.rest, n);
    StaysLeading(held, data, p, n);
    if !c.exited {
      NothingBehind(c.held, data[c.pos..]);
      HeldIsStuck(c.held, MAX_PACKET);
    }
  }

  /** The loop over one read comes to an end exactly when the parse does not stop at a size
      byte of 0: on such a byte the handler is called for ever and nothing is consumed. */
  lemma LoopEndsExactly(held: seq<byte>, data: seq<byte>)
    requires Pending(held, MAX_PACKET)
    ensures
      var rest := Parse(held + data, MAX_PACKET).rest;
      Ends(held, data) <==> rest == [] || rest[0] != 0
  {
    var rest := Parse(held + data, MAX_PACKET).rest;
    StaysOnCourse(held, data, rest, |data|);
    if n: nat :| !Going(data, After(held, data, n)) {
      StaysOnCourse(held, data, rest, n);
      var c := After(held, data, n);
      if !c.exited {
        NothingBehind(c.held, data[c.pos..]);
        HeldIsStuck(c.held, MAX_PACKET);
      }
    }
  }
}
