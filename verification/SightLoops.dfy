/** How far the two loops of CS_MOVE have got, as relations between tables. */
module SightLoops {
  import opened SightTypes
  import opened SightProtocol

  // m has met the sessions in `done`, in the order `enter`.
  ghost predicate Entering(w: World, w': World, m: Pid, done: set<Pid>, enter: seq<Pid>)
    requires m < ORDER_END_ALL
  {
    && Orders(enter, done)
    && (forall o <- done :: IsUser(o) && o != m)
    && (forall o <- enter :: o < ORDER_END_ALL)
    && w'[m] == w[m].(view := w[m].view + done,
                      outbox := w[m].outbox + EnterPackets(w, w[m].view, enter))
    && (forall j: Pid :: j < ORDER_END_ALL && j != m ==>
          w'[j] == if j in done then Shown(w[j], m, w[m]) else w[j])
  }

  lemma EnterNobody(w: World, m: Pid)
    requires m < ORDER_END_ALL
    ensures Entering(w, w, m, {}, [])
  {
  }

  lemma EnterOneMore(w: World, w1: World, w2: World, m: Pid, done: set<Pid>, enter: seq<Pid>, o: Pid)
    requires m < ORDER_END_ALL && Entering(w, w1, m, done, enter)
    requires IsUser(o) && o != m && o !in done
    requires w2 == w1[m := Shown(w1[m], o, w1[o])][o := Shown(w1[o], m, w1[m])]
    ensures Entering(w, w2, m, done + {o}, enter + [o])
  {
    OrdersOneMore(enter, done, o);
    var packets := EnterPackets(w, w[m].view, enter);
    assert EnterPackets(w, w[m].view, enter + [o]) == packets + [EnterPacket(w, w[m].view, o)];
    assert w2[m].view == w[m].view + (done + {o});
    assert w2[m].outbox == w[m].outbox + (packets + [EnterPacket(w, w[m].view, o)]);
    assert forall x :: x in enter + [o] <==> x in enter || x == o;
  }

  // m has parted from the sessions in `done`, in the order `leave`.
  ghost predicate Leaving(w: World, w': World, m: Pid, done: set<Pid>, leave: seq<Pid>)
    requires m < ORDER_END_ALL
  {
    && Orders(leave, done)
    && w'[m] == w[m].(view := w[m].view - done, outbox := w[m].outbox + LeavePackets(leave))
    && (forall j: Pid :: j < ORDER_END_ALL && j != m ==>
          w'[j] == if j in done && IsPlayer(j) then Lost(w[j], m) else w[j])
  }

  lemma LeaveNobody(w: World, m: Pid)
    requires m < ORDER_END_ALL
    ensures Leaving(w, w, m, {}, [])
  {
  }

  lemma LeaveOneMore(w: World, w1: World, w2: World, m: Pid, done: set<Pid>, leave: seq<Pid>, o: Pid)
    requires m < ORDER_END_ALL && Leaving(w, w1, m, done, leave)
    requires o < ORDER_END_ALL && o != m && o !in done && o in w[m].view
    requires w2 == w1[m := Lost(w1[m], o)][o := if IsPlayer(o) then Lost(w1[o], m) else w1[o]]
    ensures Leaving(w, w2, m, done + {o}, leave + [o])
  {
  }

  lemma EnterPacketsSame(w: World, w1: World, view: set<Pid>, order: seq<Pid>)
    requires forall o <- order :: o < ORDER_END_ALL && w1[o].at == w[o].at
    ensures EnterPackets(w1, view, order) == EnterPackets(w, view, order)
  {
  }

  /** The step, the mover's own packet and the two loops, one after the other, take the
      table exactly where the protocol's single move takes it. */
  lemma LoopsMakeTheMove(w: World, w1: World, w2: World, w3: World, m: Pid, dir: Direction,
                         enter: seq<Pid>, leave: seq<Pid>)
    requires IsUser(m) && w[m].hasAvatar && m !in w[m].view
    requires w1 == w[m := SendMove(MovedBody(w[m], dir), m, MovedBody(w[m], dir))]
    requires Entering(w1, w2, m, Sight(w, MovedBody(w[m], dir), m), enter)
    requires Leaving(w2, w3, m, w[m].view - Sight(w, MovedBody(w[m], dir), m), leave)
    ensures MoveOrders(w, m, dir, enter, leave)
    ensures w3 == Move(w, m, dir, enter, leave)
  {
    var mover := MovedBody(w[m], dir);
    var sight := Sight(w, mover, m);
    EnterPacketsSame(w, w1, mover.view, enter);
    var w' := Move(w, m, dir, enter, leave);
    assert w3[m].view == sight;
    assert w3[m].outbox == w'[m].outbox;
    forall j: Pid | j < ORDER_END_ALL && j != m ensures w3[j] == w'[j] {
      assert w'[j] == Met(w[j], j, m, mover, sight);
    }
  }

  // ------------------------------------------------------------------ an NPC's loops

  // The sessions in `done` have been told of NPC n's step, the others not yet.
  ghost predicate Watching(w: World, w': World, n: Pid, after: Session, done: set<Pid>)
    requires n < ORDER_END_ALL
  {
    && w'[n] == after
    && (forall j: Pid :: j < ORDER_END_ALL && j != n ==>
          w'[j] == if j in done then Watched(w[j], j, n, w[n], after) else w[j])
  }

  lemma WatchOneMore(w: World, w1: World, w2: World, n: Pid, after: Session, done: set<Pid>, u: Pid)
    requires n < ORDER_END_ALL && u < ORDER_END_ALL && u != n
    requires Watching(w, w1, n, after, done)
    requires w2 == w1[u := Watched(w[u], u, n, w[n], after)]
    ensures Watching(w, w2, n, after, done + {u})
  {
  }

  lemma AllWatched(w: World, w': World, n: Pid, roll: nat, done: set<Pid>)
    requires IsNpc(n) && roll < 5
    requires Watching(w, w', n, MovedBody(w[n], RollDirection(roll)), done)
    requires Sight(w, w[n], n) + Sight(w, MovedBody(w[n], RollDirection(roll)), n) <= done
    ensures w' == Behave(w, n, roll)
  {
  }
}
