/** What each handler does to one session: its place in coordinates, its list entry by entry,
    and the very packets it is sent. */
module SightDetails {
  import opened SightTypes
  import opened SightProtocol
  import opened SightInvariant
  import opened SightSteps
  import opened SightSweep

  // Any other session when an object at `at` is near it, is lost to it, or neither.
  predicate Hears(s: Session, s': Session, x: Pid, at: Pos, near: bool, lost: bool) {
    var shown := if x == 0 then [] else if x in s.view then [MoveObject(x, at)] else [AddObject(x, Pos(0, 0))];
    && s'.status == s.status && s'.hasAvatar == s.hasAvatar && s'.at == s.at
    && s'.view == (if near then s.view + {x} else if lost then s.view - {x} else s.view)
    && s'.outbox == s.outbox + (if near then shown else if lost && x in s.view then [RemoveObject(x)] else [])
  }

  predicate InGameUser(w: World, i: Pid)
    requires i < ORDER_END_ALL
  {
    MAX_NPC <= i < ORDER_END_ALL && w[i].status == InGame
  }

  lemma MoveTells(w: World, m: Pid, dir: Direction, enter: seq<Pid>, leave: seq<Pid>, o: Pid)
    requires IsUser(m) && w[m].hasAvatar && MoveOrders(w, m, dir, enter, leave)
    requires o < ORDER_END_ALL && o != m
    ensures
      var at := Shifted(w[m].at, Heading(dir));
      Hears(w[o], Move(w, m, dir, enter, leave)[o], m, at,
            InGameUser(w, o) && WithinSeven(at, w[o].at), IsUser(o) && o in w[m].view)
  {
    var mover := MovedBody(w[m], dir);
    StepGoes(w[m].at, dir, 0);
    NearExactly(mover, w[o]);
    assert Move(w, m, dir, enter, leave)[o] == Met(w[o], o, m, mover, Sight(w, mover, m));
  }

  // The packet for the k-th object of the new sight.
  predicate EntersAs(w: World, view: set<Pid>, o: Pid, p: Packet)
    requires o < ORDER_END_ALL
  {
    p == if o in view then MoveObject(o, w[o].at) else AddObject(o, Pos(0, 0))
  }

  lemma MoverHears(w: World, m: Pid, dir: Direction, enter: seq<Pid>, leave: seq<Pid>)
    requires IsUser(m) && w[m].hasAvatar && MoveOrders(w, m, dir, enter, leave)
    ensures
      var s, s' := w[m], Move(w, m, dir, enter, leave)[m];
      var n := |s.outbox|;
      && s'.status == s.status && s'.hasAvatar && s'.at == Shifted(s.at, Heading(dir))
      && (forall u: Pid :: u in s'.view <==>
            u < ORDER_END_ALL && u != m && InGameUser(w, u) && WithinSeven(s'.at, w[u].at))
      && Orders(enter, s'.view) && Orders(leave, s.view - s'.view)
      && |s'.outbox| == n + 1 + |enter| + |leave|
      && s'.outbox[..n] == s.outbox && s'.outbox[n] == MoveObject(m, s'.at)
      && (forall k :: 0 <= k < |enter| ==>
            enter[k] < ORDER_END_ALL && EntersAs(w, s.view, enter[k], s'.outbox[n + 1 + k]))
      && (forall k :: 0 <= k < |leave| ==> s'.outbox[n + 1 + |enter| + k] == RemoveObject(leave[k]))
  {
    var mover := MovedBody(w[m], dir);
    var sight := Sight(w, mover, m);
    StepGoes(w[m].at, dir, 0);
    forall u: Pid | u < ORDER_END_ALL ensures Near(mover, w[u]) <==> WithinSeven(mover.at, w[u].at) {
      NearExactly(mover, w[u]);
    }
    assert forall o <- enter :: o in sight;
    MoverOutbox(w, m, mover, enter, leave,
                w[m].outbox + [MoveObject(m, mover.at)] + EnterPackets(w, w[m].view, enter) + LeavePackets(leave));
  }

  lemma MoverOutbox(w: World, m: Pid, mover: Session, enter: seq<Pid>, leave: seq<Pid>, sent: seq<Packet>)
    requires m < ORDER_END_ALL && forall o <- enter :: o < ORDER_END_ALL
    requires sent == w[m].outbox + [MoveObject(m, mover.at)] + EnterPackets(w, w[m].view, enter) + LeavePackets(leave)
    ensures
      var n := |w[m].outbox|;
      && |sent| == n + 1 + |enter| + |leave| && sent[..n] == w[m].outbox && sent[n] == MoveObject(m, mover.at)
      && (forall k :: 0 <= k < |enter| ==>
            enter[k] < ORDER_END_ALL && EntersAs(w, w[m].view, enter[k], sent[n + 1 + k]))
      && (forall k :: 0 <= k < |leave| ==> sent[n + 1 + |enter| + k] == RemoveObject(leave[k]))
  {
    forall k | 0 <= k < |enter|
      ensures enter[k] < ORDER_END_ALL && EntersAs(w, w[m].view, enter[k], sent[|w[m].outbox| + 1 + k])
    {
      assert enter[k] in enter;
    }
  }

  lemma BehaveTells(w: World, n: Pid, roll: nat, o: Pid)
    requires IsNpc(n) && roll < 5 && o < ORDER_END_ALL
    ensures
      var at, w' := Shifted(w[n].at, Rolled(roll)), Behave(w, n, roll);
      if o == n then w'[n] == w[n].(at := at)
      else Hears(w[o], w'[o], n, at, InGameUser(w, o) && WithinSeven(at, w[o].at),
                 InGameUser(w, o) && WithinSeven(w[n].at, w[o].at))
  {
    var after := MovedBody(w[n], RollDirection(roll));
    StepGoes(w[n].at, Still, roll);
    NearExactly(after, w[o]);
    NearExactly(w[n], w[o]);
  }

  /** After a whole sweep every NPC has taken its own step once, and nobody else has moved. */
  lemma {:induction false} SweepPlaces(w: World, rolls: seq<nat>, k: nat, o: Pid)
    requires Rolls(rolls) && k <= MAX_NPC && o < ORDER_END_ALL
    ensures Swept(w, rolls, k)[o].at == if o < k then Shifted(w[o].at, Rolled(rolls[o])) else w[o].at
  {
    if k != 0 {
      SweepPlaces(w, rolls, k - 1, o);
      BehaveTells(Swept(w, rolls, k - 1), k - 1, rolls[k - 1], o);
    }
  }

  lemma DisconnectTells(w: World, who: Pid, o: Pid)
    requires who < ORDER_END_ALL && o < ORDER_END_ALL
    ensures
      var w' := Disconnect(w, who);
      if who < MAX_NPC || w[who].status == Free then w' == w
      else if o == who then w'[o] == w[o].(status := Free)
      else Hears(w[o], w'[o], who, w[who].at, false, InGameUser(w, o))
  {
  }

  lemma AcceptTells(w: World, o: Pid)
    requires o < ORDER_END_ALL
    ensures
      var w' := Accept(w);
      w'[o] ==
      if MAX_NPC <= o && w[o].status == Free && (forall j :: MAX_NPC <= j < o ==> w[j].status != Free)
      then Session(Accepted, true, Pos(4, 4), w[o].view, []) else w[o]
  {
  }

  lemma InitialTells(o: Pid)
    requires o < ORDER_END_ALL
    ensures InitialWorld()[o] ==
            if o < 200000 then Session(InGame, true, Pos(4, 4), {}, []) else Session(Free, false, Pos(0, 0), {}, [])
  {
  }

  // The ADDs of a first login: one for each session below k that lists c, but for NPC 0, in
  // order of identifiers.
  ghost predicate Introduces(w: World, c: Pid, k: nat, adds: seq<Packet>)
    requires k <= ORDER_END_ALL
  {
    && (forall i :: 0 <= i < |adds| ==> adds[i].AddObject? && adds[i].at == Pos(0, 0) && adds[i].id < k)
    && (forall i, j :: 0 <= i < j < |adds| ==> adds[i].id < adds[j].id)
    && (forall o: Pid :: 0 < o < k ==> (AddObject(o, Pos(0, 0)) in adds <==> Sees(w, o, c)))
    && AddObject(0, Pos(0, 0)) !in adds
  }

  lemma {:induction false} IntroducedAdds(w: World, c: Pid, k: nat) returns (adds: seq<Packet>)
    requires c < ORDER_END_ALL && k <= ORDER_END_ALL
    ensures Introduces(w, c, k, adds) && Introduced(w, c, k).outbox == w[c].outbox + adds
  {
    if k == 0 {
      adds := [];
    } else {
      adds := IntroducedAdds(w, c, k - 1);
      if Sees(w, k - 1, c) && k - 1 != 0 {
        var more := adds + [AddObject(k - 1, Pos(0, 0))];
        IntroducesMore(w, c, k, adds, more);
        adds := more;
      }
    }
  }

  lemma IntroducesMore(w: World, c: Pid, k: nat, adds: seq<Packet>, more: seq<Packet>)
    requires 1 < k <= ORDER_END_ALL && Introduces(w, c, k - 1, adds) && Sees(w, k - 1, c)
    requires more == adds + [AddObject(k - 1, Pos(0, 0))]
    ensures Introduces(w, c, k, more)
  {
    forall o: Pid | 0 < o < k ensures AddObject(o, Pos(0, 0)) in more <==> Sees(w, o, c) {
      if o == k - 1 {
        assert more[|adds|] == AddObject(o, Pos(0, 0));
      }
    }
  }

  // Any other session when c logs in.
  lemma LoginTells(rel: Release, w: World, c: Pid, spawn: Pos, o: Pid)
    requires IsUser(c) && w[c].status == Accepted && o < ORDER_END_ALL && o != c
    ensures
      var s, s' := w[o], Login(rel, w, c, spawn)[o];
      s' == if InGameUser(w, o) && WithinSeven(spawn, w[o].at)
            then s.(view := s.view + {c}, outbox := s.outbox + [AddObject(c, Pos(0, 0))]) else s
  {
    NearExactly(w[c].(at := spawn), w[o]);
  }

  // The newcomer: in game at its spawn point, listing whoever lists it and told of them in
  // order.
  lemma NewcomerHears(rel: Release, w: World, c: Pid, spawn: Pos) returns (adds: seq<Packet>)
    requires IsUser(c) && w[c].status == Accepted
    ensures
      var s, w' := w[c], Login(rel, w, c, spawn);
      && w'[c].status == (if rel.Keeps? then InGame else Accepted) && w'[c].hasAvatar && w'[c].at == spawn
      && (forall o: Pid :: o in w'[c].view <==> o in s.view || (o < ORDER_END_ALL && Sees(w', o, c)))
      && w'[c].outbox == s.outbox + [LoginOk(c, spawn)] + adds && Introduces(w', c, ORDER_END_ALL, adds)
  {
    var w2 := Announce(w[c := Entered(w[c], c, spawn)], c);
    var w' := Login(rel, w, c, spawn);
    IntroducedFields(w2, c, ORDER_END_ALL);
    adds := IntroducedAdds(w2, c, ORDER_END_ALL);
    assert forall o: Pid :: o < ORDER_END_ALL ==> (Sees(w', o, c) <==> Sees(w2, o, c));
  }

  // A login of a user already in game drops it; on a free slot it does nothing.
  lemma ReloginTells(rel: Release, w: World, c: Pid, spawn: Pos, o: Pid)
    requires IsUser(c) && w[c].status != Accepted && o < ORDER_END_ALL
    ensures
      var w' := Login(rel, w, c, spawn);
      if w[c].status == Free then w' == w
      else if o == c then w'[o] == w[o].(status := if rel.Keeps? then Free else InGame)
      else Hears(w[o], w'[o], c, w[c].at, false, InGameUser(w, o))
  {
    if w[c].status == InGame {
      DisconnectTells(w, c, o);
    }
  }
}
