/** Joining the Asio server: every connected client, the newcomer too, hears of the
    newcomer, and the newcomer hears of everybody else. */
module AsioJoin {

  const MAX_USER: nat := 10000

  // The numbers from a up to, not including, b.
  function Range(a: nat, b: nat): seq<nat>
    decreases b - a
  {
    if a >= b then [] else Range(a, b - 1) + [b - 1]
  }

  /** What client i has been sent once the clients first, ..., next - 1 have joined: itself,
      those already there when it came, and those that came later. */
  function Introductions(first: nat, i: nat, next: nat): seq<nat> {
    [i] + Range(first, i) + Range(i + 1, next)
  }

  lemma {:induction false} RangeCounts(a: nat, b: nat, x: nat)
    ensures multiset(Range(a, b))[x] == if a <= x < b then 1 else 0
    decreases b - a
  {
    if a < b {
      RangeCounts(a, b - 1, x);
    }
  }

  /** Exactly-once introductions: of the clients that have joined, each is shown to each,
      itself included, exactly once, and nobody else ever is. */
  lemma ExactlyOnce(first: nat, i: nat, next: nat, j: nat)
    requires first <= i < next
    ensures multiset(Introductions(first, i, next))[j] == if first <= j < next then 1 else 0
  {
    RangeCounts(first, i, j);
    RangeCounts(i + 1, next, j);
    assert multiset(Introductions(first, i, next))
        == multiset([i]) + multiset(Range(first, i)) + multiset(Range(i + 1, next));
  }

  // A client that joins as number `next` is one more introduction to each before it.
  lemma OneMoreJoins(first: nat, i: nat, next: nat)
    requires first <= i < next
    ensures Introductions(first, i, next + 1) == Introductions(first, i, next) + [next]
  {
  }

  class Server {
    const connected: array<bool>
    var userId: nat
    // The first identifier a session of this run has been given.
    ghost const first: nat
    // The identifiers of the ADD_PLAYER packets sent to each client, oldest first.
    ghost var sent: seq<seq<nat>>

    ghost predicate Valid()
      reads this, connected
    {
      && connected.Length == MAX_USER == |sent| && first <= userId
      && (forall i :: 0 <= i < MAX_USER ==> (connected[i] <==> first <= i < userId))
      && (forall i :: 0 <= i < MAX_USER ==>
            sent[i] == if connected[i] then Introductions(first, i, userId) else [])
    }

    // Identifiers handed out before the first session starts are skipped for good.
    constructor (used: nat)
      ensures Valid() && fresh(connected) && userId == used && first == used
    {
      connected := new bool[MAX_USER](_ => false);
      userId, first := used, used;
      sent := seq(MAX_USER, _ => []);
    }

    // session::start; the process exits when the identifiers have run out.
    method Start() returns (exited: bool)
      requires Valid()
      modifies this, connected
      ensures exited <==> old(userId) >= MAX_USER
      ensures exited ==> sent == old(sent) && userId == old(userId)
      ensures !exited ==> Valid() && userId == old(userId) + 1
    {
      if userId >= MAX_USER {
        return true;
      }
      var me := userId;
      userId := userId + 1;
      connected[me] := true;
      AnnounceMe(me);
      ShowOthers(me);
      forall i | 0 <= i < MAX_USER
        ensures sent[i] == if connected[i] then Introductions(first, i, userId) else []
      {
        if first <= i < me {
          OneMoreJoins(first, i, me);
        } else if i == me {
          assert [] + [me] + Range(first, me) == Introductions(first, me, me + 1);
        }
      }
      return false;
    }

    // The first loop: the newcomer to every connected client.
    method AnnounceMe(me: nat)
      requires connected.Length == MAX_USER == |sent| && me < MAX_USER
      modifies this`sent
      ensures |sent| == MAX_USER
      ensures forall i :: 0 <= i < MAX_USER ==>
        sent[i] == if connected[i] then old(sent[i]) + [me] else old(sent[i])
    {
      for i := 0 to MAX_USER
        invariant |sent| == MAX_USER
        invariant forall k :: 0 <= k < MAX_USER ==>
          sent[k] == if k < i && connected[k] then old(sent[k]) + [me] else old(sent[k])
      {
        if connected[i] {
          sent := sent[i := sent[i] + [me]];
        }
      }
    }

    // The second loop: every other connected client to the newcomer.
    method ShowOthers(me: nat)
      requires connected.Length == MAX_USER == |sent| && first <= me < MAX_USER
      requires forall i :: 0 <= i < MAX_USER ==> (connected[i] <==> first <= i <= me)
      modifies this`sent
      ensures sent == old(sent)[me := old(sent[me]) + Range(first, me)]
    {
      ghost var before := sent[me];
      assert before + Range(first, 0) == before;
      for i := 0 to MAX_USER
        invariant |sent| == MAX_USER
        invariant sent[me] == before + Range(first, if i < me then i else me)
        invariant forall k :: 0 <= k < MAX_USER && k != me ==> sent[k] == old(sent[k])
      {
        if connected[i] {
          if i != me {
            assert before + Range(first, i + 1) == (before + Range(first, i)) + [i];
            sent := sent[me := sent[me] + [i]];
          }
        }
      }
      assert sent == old(sent)[me := sent[me]];
    }
  }
}
