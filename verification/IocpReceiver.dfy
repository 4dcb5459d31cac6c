/** The completion-port server's receive path: leftover bytes stay at the front of the
    buffer, new ones arrive behind them, and the loop compacts in place. */
module IocpReceiver {
  import opened DispatchLoop
  import opened Framing

  const BUF_SIZE: nat := 200

  class Receiver {
    const buf: array<byte>
    var prevRemain: nat
    ghost var dispatched: seq<seq<byte>>

    ghost predicate Valid()
      reads this, buf
    {
      buf.Length == BUF_SIZE && prevRemain <= BUF_SIZE && Pending(buf[..prevRemain], MAX_SIGNED)
    }

    ghost function Held(): (s: seq<byte>)
      requires Valid()
      reads this, buf
      ensures |s| < MAX_SIGNED
    {
      buf[..prevRemain]
    }

    constructor ()
      ensures Valid() && fresh(buf) && prevRemain == 0 && dispatched == []
    {
      buf := new byte[BUF_SIZE](_ => 0);
      prevRemain, dispatched := 0, [];
    }

    // The room do_recv offers to the next read.
    function Window(): (n: int)
      requires Valid()
      reads this, buf
      ensures BUF_SIZE - MAX_SIGNED < n <= BUF_SIZE
    {
      BUF_SIZE - prevRemain
    }

    // The bytes of one completed read land behind the leftover ones.
    method Arrive(data: seq<byte>)
      requires Valid() && |data| <= Window()
      modifies buf
      ensures buf[..prevRemain + |data|] == old(Held()) + data
    {
      for i := 0 to |data|
        invariant buf[..prevRemain + i] == old(Held()) + data[..i]
      {
        buf[prevRemain + i] := data[i];
      }
    }

    // memcpy of the unparsed bytes to the front, with the overlap handled as by memmove.
    method Compact(p: nat, n: nat)
      requires p + n <= buf.Length
      modifies buf
      ensures buf[..n] == old(buf[p..p + n])
    {
      for i := 0 to n
        invariant buf[..i] == old(buf[p..p + i])
        invariant buf[p + i..] == old(buf[p + i..])
      {
        assert buf[p + i] == old(buf[p + i]);
        assert old(buf[p..p + i]) + [old(buf[p + i])] == old(buf[p..p + i + 1]);
        buf[i] := buf[p + i];
      }
    }

    // The call of process_packet at p.
    method Hand(p: int, packetSize: int, ghost s: seq<byte>)
      requires |s| <= buf.Length && s == buf[..|s|] && Going(s, p) && packetSize == SignedHead(buf[p])
      modifies this`dispatched
      ensures dispatched == old(dispatched) + [Handed(s, p)]
    {
      assert packetSize > 0 ==> s[p..p + packetSize] == buf[p..p + packetSize];
      dispatched := dispatched + [if packetSize > 0 then buf[p..p + packetSize] else []];
    }

    // The dispatch loop over the first `end` bytes, for any bytes on which it ends; p is
    // where it leaves the cursor.
    method DispatchAll(end: nat) returns (p: int)
      requires end <= buf.Length && Ends(buf[..end])
      modifies this`dispatched
      ensures p == Outcome(buf[..end]).at
      ensures dispatched == old(dispatched) + Outcome(buf[..end]).log
    {
      var remain: int := end;
      p := 0;
      ghost var s, turns: nat := buf[..end], 0;
      while remain > 0
        invariant p + remain == end && turns <= end && p == After(s, turns).at
        invariant dispatched == old(dispatched) + After(s, turns).log
        decreases end - turns
      {
        OnTheWay(s, turns);
        var packetSize := SignedHead(buf[p]);
        if packetSize <= remain {
          NextTurn(s, turns, old(dispatched));
          Hand(p, packetSize, s);
          p, remain, turns := p + packetSize, remain - packetSize, turns + 1;
        } else {
          break;
        }
      }
      OnTheWay(s, turns);
    }

    // The OP_RECV case: dispatch until the loop ends, keep the rest at the front.
    method Completed(numBytes: nat)
      requires buf.Length == BUF_SIZE && prevRemain + numBytes <= BUF_SIZE
      requires Ends(buf[..prevRemain + numBytes])
      modifies this`prevRemain, this`dispatched, buf
      ensures Valid()
      ensures
        var s := old(buf[..prevRemain + numBytes]);
        && dispatched == old(dispatched) + Outcome(s).log && Held() == Left(s)
        && (WellFormed(s, MAX_SIGNED) ==>
              dispatched == old(dispatched) + Parse(s, MAX_SIGNED).packets && Held() == Parse(s, MAX_SIGNED).rest)
    {
      var end := prevRemain + numBytes;
      ghost var s := buf[..end];
      DispatchesExactly(s);
      var p := DispatchAll(end);
      assert Left(s) == buf[p..end];
      prevRemain := end - p;
      if prevRemain > 0 {
        Compact(p, prevRemain);
      }
    }

    // One read, copied in and dispatched.
    method Receive(data: seq<byte>)
      requires Valid() && |data| <= Window() && Ends(Held() + data)
      modifies this`prevRemain, this`dispatched, buf
      ensures Valid()
      ensures
        var s := old(Held()) + data;
        dispatched == old(dispatched) + Outcome(s).log && Held() == Left(s)
    {
      Arrive(data);
      Completed(|data|);
    }

    // A connection's whole life: reads of whatever size the window allows.
    method ReceiveAll(chunks: seq<seq<byte>>)
      requires Valid() && ReadsEnd(Held(), chunks) && Fits(Held(), chunks)
      modifies this`prevRemain, this`dispatched, buf
      ensures Valid()
      ensures
        var r := Reads(old(Held()), chunks);
        dispatched == old(dispatched) + r.packets && Held() == r.rest
    {
      ghost var whole := Reads(Held(), chunks);
      ghost var goal := Parsed(dispatched + whole.packets, whole.rest);
      var todo := chunks;
      while todo != []
        invariant Valid() && Fits(Held(), todo) && ReadsLeadTo(dispatched, Held(), todo, goal)
        decreases |todo|
      {
        OneRead(dispatched, Held(), todo, goal);
        Receive(todo[0]);
        todo := todo[1..];
      }
    }
  }

  // ------------------------------------------------- read after read

  // Each read is at most as long as the window left by what is held at that moment.
  ghost predicate Fits(held: seq<byte>, chunks: seq<seq<byte>>)
    decreases |chunks|
  {
    chunks == [] ||
    (&& |held| + |chunks[0]| <= BUF_SIZE
     && (Ends(held + chunks[0]) ==> Fits(Left(held + chunks[0]), chunks[1..])))
  }

  // The loop ends after every read.
  ghost predicate ReadsEnd(held: seq<byte>, chunks: seq<seq<byte>>)
    decreases |chunks|
  {
    chunks == [] || (Ends(held + chunks[0]) && ReadsEnd(Left(held + chunks[0]), chunks[1..]))
  }

  // What the reads hand over between them, and what they leave.
  ghost function Reads(held: seq<byte>, chunks: seq<seq<byte>>): Parsed
    requires ReadsEnd(held, chunks)
    decreases |chunks|
  {
    if chunks == [] then Parsed([], held)
    else
      var s := held + chunks[0];
      var q := Reads(Left(s), chunks[1..]);
      Parsed(Outcome(s).log + q.packets, q.rest)
  }

  // Having dispatched `log` and holding `held`, these reads lead to `goal`.
  ghost predicate ReadsLeadTo(log: seq<seq<byte>>, held: seq<byte>, chunks: seq<seq<byte>>, goal: Parsed) {
    && ReadsEnd(held, chunks)
    && log + Reads(held, chunks).packets == goal.packets && Reads(held, chunks).rest == goal.rest
  }

  lemma OneRead(log: seq<seq<byte>>, held: seq<byte>, chunks: seq<seq<byte>>, goal: Parsed)
    requires ReadsLeadTo(log, held, chunks, goal) && chunks != []
    ensures
      var s := held + chunks[0];
      Ends(s) && ReadsLeadTo(log + Outcome(s).log, Left(s), chunks[1..], goal)
  {
    var s := held + chunks[0];
    var q := Reads(Left(s), chunks[1..]);
    assert log + (Outcome(s).log + q.packets) == (log + Outcome(s).log) + q.packets;
  }

  /** Whatever arrives, and however it is cut into reads: every read's loop ends and they
      hand over, between them, exactly the packets of the parse of the whole stream if and
      only if every size byte the parse meets is between 1 and 127. */
  lemma {:induction false} ReceivesExactly(held: seq<byte>, chunks: seq<seq<byte>>)
    requires Pending(held, MAX_SIGNED)
    ensures
      var s := held + Flatten(chunks);
      && (WellFormed(s, MAX_SIGNED) <==>
            ReadsEnd(held, chunks) && Reads(held, chunks).packets == Parse(s, MAX_SIGNED).packets)
      && (WellFormed(s, MAX_SIGNED) ==> Reads(held, chunks) == Parse(s, MAX_SIGNED))
    decreases |chunks|
  {
    if chunks == [] {
      assert held + Flatten(chunks) == held;
    } else {
      var first, later := held + chunks[0], Flatten(chunks[1..]);
      assert held + Flatten(chunks) == first + later;
      DispatchesExactly(first);
      ParseConcat(first, later, MAX_SIGNED);
      RestIsStuck(first, MAX_SIGNED);
      var p := Parse(first, MAX_SIGNED);
      if WellFormed(first, MAX_SIGNED) {
        ReceivesExactly(p.rest, chunks[1..]);
        SamePrefix(p.packets, Parse(p.rest + later, MAX_SIGNED).packets, chunks, held);
      } else {
        BadHeadStays(p.rest, later, MAX_SIGNED);
      }
    }
  }

  lemma SamePrefix(log: seq<seq<byte>>, packets: seq<seq<byte>>, chunks: seq<seq<byte>>, held: seq<byte>)
    requires chunks != [] && Ends(held + chunks[0]) && log == Outcome(held + chunks[0]).log
    ensures ReadsEnd(held, chunks) ==>
      (Reads(held, chunks).packets == log + packets <==>
         Reads(Left(held + chunks[0]), chunks[1..]).packets == packets)
  {
    if ReadsEnd(held, chunks) {
      var q := Reads(Left(held + chunks[0]), chunks[1..]);
      assert (log + q.packets)[|log|..] == q.packets && (log + packets)[|log|..] == packets;
    }
  }

  lemma HandsNothingStays(log: seq<seq<byte>>, more: seq<seq<byte>>, k: nat)
    ensures HandsNothingAt(log, k) ==> HandsNothingAt(log + more, k)
    ensures HandsNothingAt(more, k) ==> HandsNothingAt(log + more, |log| + k)
  {
  }

  // The first read hands over what it does, the later ones the rest.
  lemma ReadsSplit(held: seq<byte>, chunks: seq<seq<byte>>)
    requires ReadsEnd(held, chunks) && chunks != []
    ensures
      var first := held + chunks[0];
      && Ends(first) && ReadsEnd(Left(first), chunks[1..])
      && Reads(held, chunks).packets == Outcome(first).log + Reads(Left(first), chunks[1..]).packets
  {
  }

  lemma BadHeadNow(first: seq<byte>, later: seq<byte>, more: seq<seq<byte>>)
    requires Ends(first) && !WellFormed(first, MAX_SIGNED)
    ensures HandsNothingAt(Outcome(first).log + more, |Parse(first + later, MAX_SIGNED).packets|)
  {
    DispatchesExactly(first);
    ParseConcat(first, later, MAX_SIGNED);
    BadHeadStays(Parse(first, MAX_SIGNED).rest, later, MAX_SIGNED);
    HandsNothingStays(Outcome(first).log, more, |Parse(first, MAX_SIGNED).packets|);
  }

  lemma BadHeadLater(first: seq<byte>, later: seq<byte>, more: seq<seq<byte>>)
    requires WellFormed(first, MAX_SIGNED) && Ends(first)
    requires HandsNothingAt(more, |Parse(Left(first) + later, MAX_SIGNED).packets|)
    ensures HandsNothingAt(Outcome(first).log + more, |Parse(first + later, MAX_SIGNED).packets|)
  {
    DispatchesExactly(first);
    ParseConcat(first, later, MAX_SIGNED);
    HandsNothingStays(Outcome(first).log, more, |Parse(Left(first) + later, MAX_SIGNED).packets|);
  }

  // Reads that all end although the stream is not well formed hand over a call that is no
  // packet, right after the packets of the parse.
  lemma {:induction false} BadReadsHandNothing(held: seq<byte>, chunks: seq<seq<byte>>, s: seq<byte>)
    requires Pending(held, MAX_SIGNED) && ReadsEnd(held, chunks)
    requires s == held + Flatten(chunks) && !WellFormed(s, MAX_SIGNED)
    ensures HandsNothingAt(Reads(held, chunks).packets, |Parse(s, MAX_SIGNED).packets|)
    decreases |chunks|
  {
    assert held + [] == held;
    if chunks != [] {
      var first, later := held + chunks[0], Flatten(chunks[1..]);
      assert s == first + later;
      ReadsSplit(held, chunks);
      var more := Reads(Left(first), chunks[1..]).packets;
      if WellFormed(first, MAX_SIGNED) {
        DispatchesExactly(first);
        ParseConcat(first, later, MAX_SIGNED);
        BadReadsHandNothing(Left(first), chunks[1..], Left(first) + later);
        BadHeadLater(first, later, more);
      } else {
        BadHeadNow(first, later, more);
      }
    }
  }

  /** The cut matters to bytes that are not well formed: the loop ends on these when they
      come in one read, and leaves the buffer when the last of them comes by itself. */
  lemma BadHeadsBreakChunking()
    ensures var s: seq<byte> := [3, 0, 2, 255];
      ReadsEnd([], [s]) && !ReadsEnd([], [s[..3], s[3..]])
  {
    BackwardStepMayEnd();
    BackwardStepMayStray();
    var s: seq<byte>, front: seq<byte>, last: seq<byte> := [3, 0, 2, 255], [3, 0, 2], [255];
    assert s[..3] == front && s[3..] == last;
    assert [] + s == s && [] + front == front && [] + last == last;
    assert [front, last][1..] == [last] && [s][1..] == [];
  }
}
