/** The completion-port server's dispatch loop on whatever bytes arrive: a cursor that moves
    by the size byte it stands on. That byte is a signed char, so it may stand still or move
    back. */
module DispatchLoop {
  import opened Framing

  const MAX_SIGNED: nat := 127

  // `int packet_size = p[0]` reads a signed char.
  function SignedHead(b: byte): int {
    if b as int < 128 then b as int else b as int - 256
  }

  // The cursor, and what has been handed to process_packet so far.
  datatype Loop = Loop(at: int, log: seq<seq<byte>>)

  // Something remains, and the size read at the cursor is not more than that.
  predicate Going(s: seq<byte>, at: int) {
    0 <= at < |s| && SignedHead(s[at]) <= |s| - at
  }

  // The loop has ended inside the bytes received.
  predicate Finished(s: seq<byte>, at: int) {
    0 <= at <= |s| && !Going(s, at)
  }

  // A call of process_packet: the bytes its size names, none if that is not positive.
  function Handed(s: seq<byte>, at: int): seq<byte>
    requires Going(s, at)
  {
    if SignedHead(s[at]) > 0 then s[at..at + SignedHead(s[at])] else []
  }

  // After n turns, or after fewer if the loop stops or leaves the bytes received.
  function After(s: seq<byte>, n: nat): (c: Loop)
    ensures c.at <= |s|
  {
    if n == 0 then Loop(0, [])
    else
      var c := After(s, n - 1);
      if Going(s, c.at) then Loop(c.at + SignedHead(s[c.at]), c.log + [Handed(s, c.at)]) else c
  }

  ghost predicate Ends(s: seq<byte>) {
    exists n: nat :: Finished(s, After(s, n).at)
  }

  ghost predicate Strays(s: seq<byte>) {
    exists n: nat :: After(s, n).at < 0
  }

  ghost predicate Meets(s: seq<byte>, i: nat, j: nat) {
    i < j && Going(s, After(s, i).at) && After(s, i).at == After(s, j).at
  }

  ghost predicate Returns(s: seq<byte>) {
    exists i: nat, j: nat :: Meets(s, i, j)
  }

  lemma {:induction false} Stays(s: seq<byte>, n: nat, m: nat)
    requires n <= m && !Going(s, After(s, n).at)
    ensures After(s, m) == After(s, n)
    decreases m
  {
    if n < m {
      Stays(s, n, m - 1);
    }
  }

  // Where the cursor goes depends on nothing but where it is.
  lemma {:induction false} Lockstep(s: seq<byte>, i: nat, j: nat, k: nat)
    requires After(s, i).at == After(s, j).at
    ensures After(s, i + k).at == After(s, j + k).at
  {
    if k != 0 {
      Lockstep(s, i, j, k - 1);
    }
  }

  // A loop that comes back to where it has been was still going when it should have ended.
  lemma {:induction false} EndsWithoutReturn(s: seq<byte>, n: nat, i: nat, j: nat)
    requires Finished(s, After(s, n).at) && i < j && Going(s, After(s, i).at)
    ensures After(s, i).at != After(s, j).at
    decreases n
  {
    if After(s, i).at == After(s, j).at {
      if n <= i {
        Stays(s, n, i);
      } else if n < j {
        Stays(s, n, j);
      } else {
        Lockstep(s, i, j, n - j);
        EndsWithoutReturn(s, n - (j - i), i, j);
      }
    }
  }

  function Places(n: nat): (places: set<int>)
    ensures |places| == n
    ensures forall i :: i in places <==> 0 <= i < n
  {
    if n == 0 then {} else Places(n - 1) + {n - 1}
  }

  predicate Distinct(visited: seq<int>) {
    forall i, j :: 0 <= i < j < |visited| ==> visited[i] != visited[j]
  }

  lemma {:induction false} DistinctCount(visited: seq<int>, places: set<int>)
    requires Distinct(visited) && forall x <- visited :: x in places
    ensures |visited| <= |places|
    decreases |visited|
  {
    if visited != [] {
      var x, others := visited[0], visited[1..];
      assert x in visited && forall y <- others :: y in visited && y != x;
      DistinctCount(others, places - {x});
    }
  }

  // There are only |s| places to be: a loop going for longer has been somewhere twice.
  lemma LongMeansReturn(s: seq<byte>)
    requires forall i :: 0 <= i <= |s| ==> Going(s, After(s, i).at)
    ensures Returns(s)
  {
    var visited := seq(|s| + 1, i requires 0 <= i <= |s| => After(s, i).at);
    if Distinct(visited) {
      DistinctCount(visited, Places(|s|));
    } else {
      var i, j :| 0 <= i < j < |visited| && visited[i] == visited[j];
      assert Meets(s, i, j);
    }
  }

  // A loop that ends at all ends within as many turns as there are bytes.
  lemma EndsSoon(s: seq<byte>)
    ensures Ends(s) <==> Finished(s, After(s, |s|).at)
  {
    if n: nat :| Finished(s, After(s, n).at) {
      if i :| 0 <= i <= |s| && !Going(s, After(s, i).at) {
        Stays(s, i, |s|);
        if n <= i { Stays(s, n, i); } else { Stays(s, i, n); }
      } else {
        LongMeansReturn(s);
        var i: nat, j: nat :| Meets(s, i, j);
        EndsWithoutReturn(s, n, i, j);
      }
    }
  }

  /** The loop comes to an end inside the bytes received exactly when its cursor neither
      leaves them nor comes back to where it has been. */
  lemma LoopEndsExactly(s: seq<byte>)
    ensures Ends(s) <==> !Strays(s) && !Returns(s)
  {
    if n: nat :| Finished(s, After(s, n).at) {
      if k: nat :| After(s, k).at < 0 {
        if n <= k { Stays(s, n, k); } else { Stays(s, k, n); }
      }
      if i: nat, j: nat :| Meets(s, i, j) {
        EndsWithoutReturn(s, n, i, j);
      }
    } else if !Strays(s) {
      assert forall i: nat :: Going(s, After(s, i).at) by {
        forall i: nat ensures Going(s, After(s, i).at) {
          assert !Finished(s, After(s, i).at) && After(s, i).at >= 0;
        }
      }
      LongMeansReturn(s);
    }
  }

  // Where the loop stands when it has ended.
  ghost function Outcome(s: seq<byte>): (c: Loop)
    requires Ends(s)
    ensures Finished(s, c.at)
  {
    EndsSoon(s);
    After(s, |s|)
  }

  ghost function Left(s: seq<byte>): (rest: seq<byte>)
    requires Ends(s)
    ensures Pending(rest, MAX_SIGNED)
  {
    s[Outcome(s).at..]
  }

  // Until it has ended the loop is inside the bytes and has turns to spare.
  lemma OnTheWay(s: seq<byte>, n: nat)
    requires Ends(s) && n <= |s|
    ensures 0 <= After(s, n).at <= |s|
    ensures Going(s, After(s, n).at) ==> n < |s|
    ensures !Going(s, After(s, n).at) ==> After(s, n) == Outcome(s)
  {
    EndsSoon(s);
    if !Going(s, After(s, n).at) {
      Stays(s, n, |s|);
    }
  }

  // One more turn of a loop that is going to end.
  lemma NextTurn(s: seq<byte>, n: nat, log: seq<seq<byte>>)
    requires Ends(s) && n < |s| && Going(s, After(s, n).at)
    ensures
      var c := After(s, n);
      var c' := After(s, n + 1);
      && 0 <= c'.at == c.at + SignedHead(s[c.at]) <= |s|
      && log + c'.log == (log + c.log) + [Handed(s, c.at)]
  {
    OnTheWay(s, n + 1);
    var c := After(s, n);
    assert After(s, n + 1).log == c.log + [Handed(s, c.at)];
  }

  // ------------------------------------------------- against the parse

  // After k turns the loop has handed over k packets of the goal and leads to the others.
  ghost predicate Following(s: seq<byte>, c: Loop, k: nat, goal: Parsed) {
    0 <= c.at <= |s| && |c.log| == k && LeadsTo(c.log, s[c.at..], MAX_SIGNED, goal)
  }

  lemma TurnFollowsParse(s: seq<byte>, c: Loop, k: nat, goal: Parsed)
    requires Following(s, c, k, goal) && k < |goal.packets|
    ensures Going(s, c.at) && SignedHead(s[c.at]) > 0
    ensures Following(s, Loop(c.at + SignedHead(s[c.at]), c.log + [Handed(s, c.at)]), k + 1, goal)
  {
    var rest := s[c.at..];
    assert rest != [] && GoodHead(rest[0], MAX_SIGNED) && rest[0] as int <= |rest|;
    var n := rest[0] as int;
    assert rest[0] == s[c.at];
    DispatchOne(c.log, rest, MAX_SIGNED, goal);
    assert Handed(s, c.at) == rest[..n];
    assert s[c.at + n..] == rest[n..];
  }

  // Turn by turn the loop hands over the packets of its goal, for as long as there are any.
  lemma {:induction false} FollowsOn(s: seq<byte>, k: nat, goal: Parsed)
    requires Following(s, Loop(0, []), 0, goal) && k <= |goal.packets|
    ensures Following(s, After(s, k), k, goal)
  {
    if k != 0 {
      FollowsOn(s, k - 1, goal);
      TurnFollowsParse(s, After(s, k - 1), k - 1, goal);
    }
  }

  lemma FollowsParse(s: seq<byte>, k: nat)
    requires k <= |Parse(s, MAX_SIGNED).packets|
    ensures Following(s, After(s, k), k, Parse(s, MAX_SIGNED))
  {
    assert s[0..] == s;
    FollowsOn(s, k, Parse(s, MAX_SIGNED));
  }

  lemma {:induction false} LogGrows(s: seq<byte>, n: nat, m: nat)
    requires n <= m
    ensures After(s, n).log <= After(s, m).log
    decreases m
  {
    if n < m {
      LogGrows(s, n, m - 1);
    }
  }

  // Where the parse stops the loop has handed over its packets, and either stops as well
  // or is about to hand over something that is no packet.
  lemma AtTheEndOfTheParse(s: seq<byte>)
    ensures
      var p := Parse(s, MAX_SIGNED);
      var c := After(s, |p.packets|);
      && c.log == p.packets && 0 <= c.at <= |s| && s[c.at..] == p.rest
      && (WellFormed(s, MAX_SIGNED) <==> Finished(s, c.at))
      && (!WellFormed(s, MAX_SIGNED) <==> Going(s, c.at))
  {
    var p := Parse(s, MAX_SIGNED);
    FollowsParse(s, |p.packets|);
    RestIsStuck(s, MAX_SIGNED);
    var c := After(s, |p.packets|);
    assert Parse(s[c.at..], MAX_SIGNED).packets == [];
    assert s[c.at..] == p.rest;
    if c.at < |s| {
      assert p.rest[0] == s[c.at];
    }
  }

  // Call k names no bytes: it is no packet.
  predicate HandsNothingAt(log: seq<seq<byte>>, k: nat) {
    k < |log| && log[k] == []
  }

  // The call at a bad head, if the loop gets past it.
  lemma BadHeadHandsNothing(s: seq<byte>)
    requires !WellFormed(s, MAX_SIGNED)
    ensures var k := |Parse(s, MAX_SIGNED).packets|; HandsNothingAt(After(s, k + 1).log, k)
  {
    var p := Parse(s, MAX_SIGNED);
    AtTheEndOfTheParse(s);
    var c := After(s, |p.packets|);
    assert p.rest[0] == s[c.at];
    assert Handed(s, c.at) == [];
  }

  /** Whatever arrives: the loop ends inside the received bytes having handed over exactly
      the packets of the parse if and only if every size byte the parse meets is between 1
      and 127; and then it leaves exactly the parse's rest. */
  lemma DispatchesExactly(s: seq<byte>)
    ensures Ends(s) && Outcome(s).log == Parse(s, MAX_SIGNED).packets <==> WellFormed(s, MAX_SIGNED)
    ensures WellFormed(s, MAX_SIGNED) ==> Ends(s) && Left(s) == Parse(s, MAX_SIGNED).rest
    ensures Ends(s) && !WellFormed(s, MAX_SIGNED) ==>
      HandsNothingAt(Outcome(s).log, |Parse(s, MAX_SIGNED).packets|)
  {
    var k := |Parse(s, MAX_SIGNED).packets|;
    AtTheEndOfTheParse(s);
    EndsSoon(s);
    if Ends(s) {
      if k <= |s| {
        if Going(s, After(s, k).at) {
          OnTheWay(s, k);
          BadHeadHandsNothing(s);
          LogGrows(s, k + 1, |s|);
        } else {
          Stays(s, k, |s|);
        }
      } else {
        LogIsShort(s, |s|);
        LogGrows(s, |s|, k);
        Stays(s, |s|, k);
      }
    }
  }

  lemma {:induction false} LogIsShort(s: seq<byte>, n: nat)
    ensures |After(s, n).log| <= n
  {
    if n != 0 {
      LogIsShort(s, n - 1);
    }
  }

  // ------------------------------------------------- what other size bytes do

  /** A negative size that stays inside: the cursor goes 0, 3, 2, 4 and the loop ends, having
      handed over a call that is no packet and two bytes it had handed over before. */
  lemma BackwardStepMayEnd()
    ensures var s: seq<byte> := [3, 0, 2, 255];
      && Ends(s) && !WellFormed(s, MAX_SIGNED)
      && Outcome(s) == Loop(4, [[3, 0, 2], [], [2, 255]])
  {
    var s: seq<byte> := [3, 0, 2, 255];
    assert After(s, 0) == Loop(0, []);
    assert Handed(s, 0) == [3, 0, 2];
    assert After(s, 1) == Loop(3, [[3, 0, 2]]);
    assert After(s, 2) == Loop(2, [[3, 0, 2], []]);
    assert Handed(s, 2) == [2, 255];
    assert After(s, 3) == Loop(4, [[3, 0, 2], [], [2, 255]]);
    assert Finished(s, After(s, 3).at);
    OnTheWay(s, 3);
    DispatchesExactly(s);
  }

  /** ... one that comes back for ever, between 2 and 3 ... */
  lemma BackwardStepMayReturn()
    ensures var s: seq<byte> := [3, 0, 1, 255]; !Ends(s) && !Strays(s)
  {
    var s: seq<byte> := [3, 0, 1, 255];
    assert After(s, 0) == Loop(0, []);
    assert After(s, 1).at == 3;
    assert After(s, 2).at == 2;
    assert After(s, 3).at == 3;
    assert Meets(s, 1, 3);
    LoopEndsExactly(s);
    forall n: nat ensures After(s, n).at >= 0 {
      RoundAndRound(s, n);
    }
  }

  lemma {:induction false} RoundAndRound(s: seq<byte>, n: nat)
    requires s == [3, 0, 1, 255]
    ensures After(s, n).at in {0, 2, 3}
  {
    if n != 0 {
      RoundAndRound(s, n - 1);
    }
  }

  /** ... and one that leaves the bytes received. The very bytes on which the loop ends when
      they arrive together make it stray when the last of them arrives alone. */
  lemma BackwardStepMayStray()
    ensures Strays([255]) && !Ends([255]) && Ends([3, 0, 2]) && Left([3, 0, 2]) == []
  {
    assert After([255], 0) == Loop(0, []);
    assert After([255], 1).at == -1;
    LoopEndsExactly([255]);
    var s: seq<byte> := [3, 0, 2];
    assert After(s, 0) == Loop(0, []);
    assert After(s, 1).at == 3;
    OnTheWay(s, 1);
  }
}
