/** The heartbeat: one pass of BehaveNPC over every NPC, with no player moving. */
module SightSweep {
  import opened SightTypes
  import opened SightProtocol
  import opened ClientReplica
  import opened SightInvariant

  predicate Rolls(rolls: seq<nat>) {
    |rolls| == MAX_NPC && forall i :: 0 <= i < |rolls| ==> rolls[i] < 5
  }

  // The table after the first k NPCs have acted, NPC n by rolls[n].
  function Swept(w: World, rolls: seq<nat>, k: nat): World
    requires Rolls(rolls) && k <= MAX_NPC
  {
    if k == 0 then w else Behave(Swept(w, rolls, k - 1), k - 1, rolls[k - 1])
  }

  predicate NpcEntriesNear(w: World, v: Pid)
    requires v < ORDER_END_ALL
  {
    forall n <- w[v].view :: IsNpc(n) ==> Near(w[v], w[n])
  }

  // After k NPCs have acted: theirs are exact, the others' entries are still in range.
  predicate SweptTo(w: World, v: Pid, k: nat)
    requires v < ORDER_END_ALL
  {
    && (forall n: Pid :: n < k && IsNpc(n) ==> (n in w[v].view <==> Near(w[v], w[n])))
    && NpcEntriesNear(w, v)
  }

  lemma BehaveSweepsOne(w: World, v: Pid, n: Pid, roll: nat)
    requires IsUser(v) && w[v].status == InGame && IsNpc(n) && roll < 5
    requires SweptTo(w, v, n)
    ensures var w' := Behave(w, n, roll); w'[v].status == InGame && w'[v].at == w[v].at && SweptTo(w', v, n + 1)
  {
  }

  lemma {:induction false} SweptSoFar(w: World, rolls: seq<nat>, k: nat, v: Pid)
    requires Rolls(rolls) && k <= MAX_NPC
    requires IsUser(v) && w[v].status == InGame && NpcEntriesNear(w, v)
    ensures
      var w' := Swept(w, rolls, k);
      w'[v].status == InGame && w'[v].at == w[v].at && SweptTo(w', v, k)
  {
    if k != 0 {
      SweptSoFar(w, rolls, k - 1, v);
      BehaveSweepsOne(Swept(w, rolls, k - 1), v, k - 1, rolls[k - 1]);
    }
  }

  /** Heartbeat convergence: if the NPCs an in-game player lists are in range, one full
      sweep makes them exactly the NPCs in range, whatever moves are rolled. */
  lemma HeartbeatConverges(w: World, rolls: seq<nat>, v: Pid, n: Pid)
    requires Rolls(rolls) && IsUser(v) && w[v].status == InGame && NpcEntriesNear(w, v)
    requires IsNpc(n)
    ensures var w' := Swept(w, rolls, MAX_NPC); n in w'[v].view <==> Near(w'[v], w'[n])
  {
    SweptSoFar(w, rolls, MAX_NPC, v);
  }

  lemma {:induction false} SweepKeeps(w: World, rolls: seq<nat>, k: nat)
    requires Rolls(rolls) && k <= MAX_NPC && Inv(w)
    ensures Inv(Swept(w, rolls, k))
  {
    if k != 0 {
      var w1 := Swept(w, rolls, k - 1);
      SweepKeeps(w, rolls, k - 1);
      BehaveKeeps(w1, k - 1, rolls[k - 1]);
      assert Swept(w, rolls, k) == Behave(w1, k - 1, rolls[k - 1]);
    }
  }

  // A client knowing r knows NPC n and, if `done`, has been shown where n really is.
  ghost predicate KnowsNpc(r: Replica, body: Session, n: Pid, done: bool) {
    n in r.known && (done ==> r.known[n] == Sighting(body.at, true))
  }

  ghost predicate ClientKnowsNpc(w: World, v: Pid, n: Pid, done: bool)
    requires IsUser(v) && IsNpc(n)
  {
    KnowsNpc(Replay(v, w[v].outbox), w[n], n, done)
  }

  lemma OtherNpcKeepsTruth(w: World, v: Pid, n: Pid, x: Pid, roll: nat, done: bool)
    requires IsUser(v) && IsNpc(n) && IsNpc(x) && x != n && roll < 5
    requires ClientKnowsNpc(w, v, n, done)
    ensures var w' := Behave(w, x, roll); w'[n] == w[n] && ClientKnowsNpc(w', v, n, done)
  {
  }

  lemma OwnStepShowsTruth(w: World, v: Pid, n: Pid, roll: nat)
    requires IsUser(v) && w[v].status == InGame && IsNpc(n) && n != 0 && roll < 5
    requires n in w[v].view && ClientKnowsNpc(w, v, n, false)
    ensures
      var w' := Behave(w, n, roll);
      Near(w'[v], w'[n]) ==> n in w'[v].view && ClientKnowsNpc(w', v, n, true)
  {
  }

  lemma KnownIsListed(w: World, v: Pid, n: Pid)
    requires Inv(w) && IsUser(v) && w[v].status == InGame && IsNpc(n) && n != 0
    ensures n in w[v].view <==> ClientKnowsNpc(w, v, n, false)
    ensures n in w[v].view ==> Near(w[v], w[n])
  {
  }

  // Known before its own step, truly shown after it for as long as it stays in range.
  ghost predicate SeenSoFar(w: World, v: Pid, n: Pid, k: nat)
    requires IsUser(v) && IsNpc(n)
  {
    && w[v].status == InGame
    && (k <= n ==> ClientKnowsNpc(w, v, n, false))
    && (n < k && Near(w[v], w[n]) ==> ClientKnowsNpc(w, v, n, true))
  }

  lemma SeenOneMore(w: World, v: Pid, n: Pid, k: nat, roll: nat)
    requires Inv(w) && IsUser(v) && IsNpc(n) && n != 0 && IsNpc(k) && roll < 5
    requires SeenSoFar(w, v, n, k)
    ensures SeenSoFar(Behave(w, k, roll), v, n, k + 1)
  {
    var w' := Behave(w, k, roll);
    assert w'[v].status == w[v].status && w'[v].at == w[v].at;
    if k == n {
      KnownIsListed(w, v, n);
      OwnStepShowsTruth(w, v, n, roll);
    } else {
      assert w'[n] == w[n];
      if k < n {
        OtherNpcKeepsTruth(w, v, n, k, roll, false);
      } else if Near(w[v], w[n]) {
        OtherNpcKeepsTruth(w, v, n, k, roll, true);
      }
    }
  }

  lemma {:induction false} SweepShowsSoFar(w: World, rolls: seq<nat>, k: nat, v: Pid, n: Pid)
    requires Rolls(rolls) && k <= MAX_NPC && Inv(w)
    requires IsUser(v) && w[v].status == InGame && IsNpc(n) && n != 0 && n in w[v].view
    ensures SeenSoFar(Swept(w, rolls, k), v, n, k)
  {
    if k == 0 {
      KnownIsListed(w, v, n);
    } else {
      SweepShowsSoFar(w, rolls, k - 1, v, n);
      SweepKeeps(w, rolls, k - 1);
      SeenOneMore(Swept(w, rolls, k - 1), v, n, k - 1, rolls[k - 1]);
    }
  }

  /** An NPC that was listed before a sweep and is listed after it stands, in the
      client's eyes, exactly where it is: the sweep heals the origin an ADD has shown. */
  lemma SweepShowsTruth(w: World, rolls: seq<nat>, v: Pid, n: Pid)
    requires Rolls(rolls) && Inv(w) && IsUser(v) && w[v].status == InGame
    requires IsNpc(n) && n != 0 && n in w[v].view && n in Swept(w, rolls, MAX_NPC)[v].view
    ensures
      var w' := Swept(w, rolls, MAX_NPC);
      var r := Replay(v, w'[v].outbox);
      n in r.known && r.known[n].at == w'[n].at
  {
    SweepShowsSoFar(w, rolls, MAX_NPC, v, n);
    SweepKeeps(w, rolls, MAX_NPC);
    assert ViewAgrees(Swept(w, rolls, MAX_NPC), v);
  }
}
