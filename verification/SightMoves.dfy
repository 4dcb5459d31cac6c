/** CS_MOVE: what the mover's own client hears, and exactly when a move is harmless. */
module SightMoves {
  import opened SightTypes
  import opened SightProtocol
  import opened ClientReplica
  import opened SightInvariant

  predicate Distinct(order: seq<Pid>) {
    forall i, j :: 0 <= i < j < |order| ==> order[i] != order[j]
  }

  // What r' knows once the objects of `order` have been shown to a client that knew r.
  ghost predicate ShownAll(w: World, view: set<Pid>, order: seq<Pid>, r: Replica, r': Replica) {
    && r'.me == r.me && r'.faults == r.faults
    && (forall o :: o in r'.known <==> o in r.known || o in order)
    && (forall o :: o in r'.known && o in order && o < ORDER_END_ALL ==>
          r'.known[o] == Sighting(if o in view then w[o].at else ORIGIN, o in view))
    && (forall o :: o in r.known && o !in order ==> r'.known[o] == r.known[o])
  }

  lemma ShowOneMore(w: World, view: set<Pid>, order: seq<Pid>, m: Pid, o: Pid, r: Replica, r': Replica)
    requires ShownAll(w, view, order, r, r')
    requires o !in order && o != m && o < ORDER_END_ALL && (o in view <==> o in r.known)
    ensures ShownAll(w, view, order + [o], r, Apply(m, r', EnterPacket(w, view, o)))
  {
  }

  // Walking the new sight: everything in it ends up known, old acquaintances moved.
  lemma {:induction false} EnterReplay(w: World, view: set<Pid>, order: seq<Pid>, m: Pid, r: Replica)
    requires Distinct(order) && m !in order
    requires forall o <- order :: o < ORDER_END_ALL && (o in view <==> o in r.known)
    ensures ShownAll(w, view, order, r, ReplayFrom(m, r, EnterPackets(w, view, order)))
    decreases |order|
  {
    if order != [] {
      var front, o := order[..|order| - 1], order[|order| - 1];
      assert order == front + [o];
      EnterReplay(w, view, front, m, r);
      assert o in order && o !in front;
      assert EnterPackets(w, view, order) == EnterPackets(w, view, front) + [EnterPacket(w, view, o)];
      ReplayOne(m, r, EnterPackets(w, view, front), EnterPacket(w, view, o));
      ShowOneMore(w, view, front, m, o, r, ReplayFrom(m, r, EnterPackets(w, view, front)));
    }
  }

  // Walking what is left of the old sight: each entry is taken away.
  lemma {:induction false} LeaveReplay(order: seq<Pid>, m: Pid, r: Replica)
    requires Distinct(order)
    ensures
      var r' := ReplayFrom(m, r, LeavePackets(order));
      && r'.me == r.me
      && (forall o :: o in r'.known <==> o in r.known && o !in order)
      && (forall o :: o in r'.known ==> r'.known[o] == r.known[o])
      && (forall o :: o in r'.faults <==> o in r.faults || (o in order && o !in r.known))
    decreases |order|
  {
    if order != [] {
      var front, o := order[..|order| - 1], order[|order| - 1];
      LeaveReplay(front, m, r);
      assert o in order && o !in front;
      assert forall x :: x in order <==> x in front || x == o;
      assert LeavePackets(order) == LeavePackets(front) + [RemoveObject(o)];
      ReplayOne(m, r, LeavePackets(front), RemoveObject(o));
    }
  }

  // Everything the mover's client hears in one move, from what it knew before.
  lemma MoverReplay(w: World, m: Pid, dir: Direction, enter: seq<Pid>, leave: seq<Pid>)
    requires IsUser(m) && w[m].hasAvatar && MoveOrders(w, m, dir, enter, leave)
    requires var r := Replay(m, w[m].outbox); forall o <- enter :: o in w[m].view <==> o in r.known
    ensures
      var r, mover := Replay(m, w[m].outbox), MovedBody(w[m], dir);
      var r' := Replay(m, Move(w, m, dir, enter, leave)[m].outbox);
      && r'.me == Some(mover.at)
      && (forall o :: o in r'.known <==> (o in r.known || o in enter) && o !in leave)
      && (forall o <- enter :: r'.known[o] ==
            Sighting(if o in w[m].view then w[o].at else ORIGIN, o in w[m].view))
      && (forall o :: o in r'.known && o !in enter ==> r'.known[o] == r.known[o])
      && (forall o :: o in r'.faults <==> o in r.faults || (o in leave && o !in r.known))
  {
    var r, mover := Replay(m, w[m].outbox), MovedBody(w[m], dir);
    var own := [MoveObject(m, mover.at)];
    var a, b := EnterPackets(w, w[m].view, enter), LeavePackets(leave);
    var r1 := r.(me := Some(mover.at));
    ReplayOne(m, NOTHING, w[m].outbox, own[0]);
    ReplayConcat(m, NOTHING, w[m].outbox + own, a);
    ReplayConcat(m, NOTHING, w[m].outbox + own + a, b);
    var sight := Sight(w, mover, m);
    assert forall o <- enter :: o in sight;
    EnterReplay(w, w[m].view, enter, m, r1);
    LeaveReplay(leave, m, ReplayFrom(m, r1, a));
    assert forall o <- leave :: o !in enter;
  }

  /** CS_MOVE exactness. Whatever the lists were before, the mover's list becomes the
      freshly computed sight; another session lists the mover afterwards exactly when
      it is in that sight, or listed the mover before without being listed back; and no
      other entry of any list changes. */
  lemma MoveViewsExactly(w: World, m: Pid, dir: Direction, enter: seq<Pid>, leave: seq<Pid>, o: Pid)
    requires IsUser(m) && w[m].hasAvatar && MoveOrders(w, m, dir, enter, leave)
    requires o < ORDER_END_ALL && o != m
    ensures
      var w', sight := Move(w, m, dir, enter, leave), Sight(w, MovedBody(w[m], dir), m);
      && w'[m].view == sight
      && (m in w'[o].view <==> o in sight || (m in w[o].view && !(IsUser(o) && o in w[m].view)))
      && w'[o].view - {m} == w[o].view - {m}
  {
  }

  // With symmetric lists the second case is empty: the two lists mirror each other.
  lemma MoveMirrors(w: World, m: Pid, dir: Direction, enter: seq<Pid>, leave: seq<Pid>, o: Pid)
    requires IsUser(m) && w[m].hasAvatar && MoveOrders(w, m, dir, enter, leave)
    requires IsUser(o) && o != m
    requires m in w[o].view ==> o in w[m].view
    ensures var w' := Move(w, m, dir, enter, leave); m in w'[o].view <==> o in w'[m].view
  {
  }

  // ------------------------------------------------------------------ harmlessness

  /** The exact condition under which a CS_MOVE keeps the invariant: the mover is in
      game, or nobody is there to see it and there is nobody to be told a REMOVE of
      something it was never shown. */
  ghost predicate MoveHarmless(w: World, m: Pid, dir: Direction)
    requires IsUser(m)
  {
    || !w[m].hasAvatar
    || w[m].status == InGame
    || (&& Sight(w, MovedBody(w[m], dir), m) == {}
        && (w[m].status == Accepted ==> w[m].view <= {0})
        && (forall o <- w[m].view :: IsUser(o) && w[o].status == Accepted ==> m !in w[o].view))
  }

  lemma MoveFormed(w: World, m: Pid, dir: Direction, enter: seq<Pid>, leave: seq<Pid>, i: Pid)
    requires IsUser(m) && MoveOrders(w, m, dir, enter, leave) && i < ORDER_END_ALL
    requires Formed(w[i], i) && Formed(w[m], m)
    ensures Formed(Move(w, m, dir, enter, leave)[i], i)
  {
  }

  lemma MoverAgrees(w: World, m: Pid, dir: Direction, enter: seq<Pid>, leave: seq<Pid>)
    requires IsUser(m) && w[m].status == InGame && w[m].hasAvatar && MoveOrders(w, m, dir, enter, leave)
    ensures ViewAgrees(Move(w, m, dir, enter, leave), m)
  {
  }

  lemma MoveOtherAgrees(w: World, m: Pid, dir: Direction, enter: seq<Pid>, leave: seq<Pid>, v: Pid)
    requires IsUser(m) && w[m].status == InGame && w[m].hasAvatar && MoveOrders(w, m, dir, enter, leave)
    requires IsUser(v) && v != m && w[v].status == InGame
    requires ViewAgrees(w, v) && ViewAgrees(w, m)
    ensures ViewAgrees(Move(w, m, dir, enter, leave), v)
  {
    var w' := Move(w, m, dir, enter, leave);
    MoveViewsExactly(w, m, dir, enter, leave, v);
    assert m in w'[v].view <==> v in Sight(w, MovedBody(w[m], dir), m);
    forall u: Pid | u < ORDER_END_ALL && u != m
      ensures w'[u].status == w[u].status && w'[u].at == w[u].at && (u in w'[v].view <==> u in w[v].view)
    {
      assert u in w'[v].view - {m} <==> u in w[v].view - {m};
    }
  }

  lemma MoveMoverTracks(w: World, m: Pid, dir: Direction, enter: seq<Pid>, leave: seq<Pid>)
    requires Inv(w) && IsUser(m) && w[m].status == InGame && MoveOrders(w, m, dir, enter, leave)
    ensures var w' := Move(w, m, dir, enter, leave); Tracks(w', m, w'[m])
  {
    var w' := Move(w, m, dir, enter, leave);
    var r := Replay(m, w[m].outbox);
    assert Consistent(w, m, w[m]) && Formed(w[m], m);
    MoverReplay(w, m, dir, enter, leave);
    MoverExact(w, m, dir, enter, leave, r, Replay(m, w'[m].outbox));
  }

  lemma MoverExact(w: World, m: Pid, dir: Direction, enter: seq<Pid>, leave: seq<Pid>, r: Replica, r': Replica)
    requires IsUser(m) && w[m].hasAvatar && MoveOrders(w, m, dir, enter, leave)
    requires Exact(w, w[m], r)
    requires r'.me == Some(MovedBody(w[m], dir).at)
    requires forall o :: o in r'.known <==> (o in r.known || o in enter) && o !in leave
    requires forall o <- enter :: o in r'.known &&
               r'.known[o] == Sighting(if o in w[m].view then w[o].at else ORIGIN, o in w[m].view)
    requires forall o :: o in r'.faults <==> o in r.faults || (o in leave && o !in r.known)
    ensures var w' := Move(w, m, dir, enter, leave); Exact(w', w'[m], r')
  {
  }

  lemma MoveOtherConsistent(w: World, m: Pid, dir: Direction, enter: seq<Pid>, leave: seq<Pid>, v: Pid)
    requires Inv(w) && IsUser(m) && w[m].status == InGame && MoveOrders(w, m, dir, enter, leave)
    requires IsUser(v) && v != m
    ensures var w' := Move(w, m, dir, enter, leave); Consistent(w', v, w'[v])
  {
    var w' := Move(w, m, dir, enter, leave);
    assert Consistent(w, v, w[v]) && ViewAgrees(w, m) && Formed(w[m], m);
    if w[v].status == InGame {
      assert ViewAgrees(w, v);
      assert Near(w[v], w[m]) <==> Near(w[m], w[v]);
      TellKeepsTracking(w, w', v, w[v], w'[v], m);
    }
  }

  lemma InGameMoveKeeps(w: World, m: Pid, dir: Direction, enter: seq<Pid>, leave: seq<Pid>)
    requires Inv(w) && IsUser(m) && w[m].status == InGame && MoveOrders(w, m, dir, enter, leave)
    ensures Inv(Move(w, m, dir, enter, leave))
  {
    var w' := Move(w, m, dir, enter, leave);
    forall i: Pid | i < ORDER_END_ALL ensures Formed(w'[i], i) {
      assert Formed(w[i], i) && Formed(w[m], m);
      MoveFormed(w, m, dir, enter, leave, i);
    }
    forall v: Pid | IsUser(v) && w'[v].status == InGame ensures ViewAgrees(w', v) {
      assert ViewAgrees(w, v) && ViewAgrees(w, m) && Formed(w[m], m);
      if v == m {
        MoverAgrees(w, m, dir, enter, leave);
      } else {
        MoveOtherAgrees(w, m, dir, enter, leave, v);
      }
    }
    forall v: Pid | IsUser(v) ensures Consistent(w', v, w'[v]) {
      if v == m {
        MoveMoverTracks(w, m, dir, enter, leave);
      } else {
        MoveOtherConsistent(w, m, dir, enter, leave, v);
      }
    }
  }

  // A mover that is not in game but is seen ends up in the list of whoever sees it.
  lemma SeenGhostBreaks(w: World, m: Pid, dir: Direction, enter: seq<Pid>, leave: seq<Pid>, u: Pid)
    requires IsUser(m) && w[m].hasAvatar && w[m].status != InGame
    requires MoveOrders(w, m, dir, enter, leave)
    requires u in Sight(w, MovedBody(w[m], dir), m)
    ensures var w' := Move(w, m, dir, enter, leave); w'[u].status == InGame && !ViewAgrees(w', u)
  {
  }

  // A mover that is not in game but still lists somebody hears a REMOVE it cannot place.
  lemma StaleGhostBreaks(w: World, m: Pid, dir: Direction, enter: seq<Pid>, leave: seq<Pid>, o: Pid)
    requires Inv(w) && IsUser(m) && w[m].status == Accepted
    requires MoveOrders(w, m, dir, enter, leave) && Sight(w, MovedBody(w[m], dir), m) == {}
    requires o in w[m].view && o != 0
    ensures var w' := Move(w, m, dir, enter, leave); !Consistent(w', m, w'[m])
  {
    assert Consistent(w, m, w[m]) && Formed(w[m], m);
    assert forall x <- enter :: x in Sight(w, MovedBody(w[m], dir), m);
    MoverReplay(w, m, dir, enter, leave);
    assert o in leave;
  }

  // ... and so does a connection that was never told of the mover it still lists.
  lemma StaleListerBreaks(w: World, m: Pid, dir: Direction, enter: seq<Pid>, leave: seq<Pid>, o: Pid)
    requires Inv(w) && IsUser(m) && w[m].hasAvatar
    requires MoveOrders(w, m, dir, enter, leave) && Sight(w, MovedBody(w[m], dir), m) == {}
    requires o in w[m].view && IsUser(o) && w[o].status == Accepted && m in w[o].view
    ensures var w' := Move(w, m, dir, enter, leave); !Consistent(w', o, w'[o])
  {
  }

  // Nobody sees the mover: only sessions that are free can change, beside its own.
  lemma UnseenMoveTouches(w: World, m: Pid, dir: Direction, enter: seq<Pid>, leave: seq<Pid>, i: Pid)
    requires Inv(w) && IsUser(m) && w[m].hasAvatar && w[m].status != InGame
    requires MoveOrders(w, m, dir, enter, leave) && MoveHarmless(w, m, dir)
    requires i < ORDER_END_ALL && i != m
    ensures
      var w' := Move(w, m, dir, enter, leave);
      w'[i].status == w[i].status && w'[i].at == w[i].at && (w[i].status != Free ==> w'[i] == w[i])
  {
  }

  lemma UnseenMoverConsistent(w: World, m: Pid, dir: Direction, enter: seq<Pid>, leave: seq<Pid>)
    requires Inv(w) && IsUser(m) && w[m].status == Accepted
    requires MoveOrders(w, m, dir, enter, leave) && MoveHarmless(w, m, dir)
    ensures var w' := Move(w, m, dir, enter, leave); Consistent(w', m, w'[m])
  {
    var w' := Move(w, m, dir, enter, leave);
    assert Consistent(w, m, w[m]) && Formed(w[m], m);
    var sight := Sight(w, MovedBody(w[m], dir), m);
    assert forall x <- enter :: x in sight;
    assert forall x <- leave :: x in w[m].view;
    MoverReplay(w, m, dir, enter, leave);
    assert Replay(m, w'[m].outbox).known == map[];
  }

  lemma UnseenMoveKeeps(w: World, m: Pid, dir: Direction, enter: seq<Pid>, leave: seq<Pid>)
    requires Inv(w) && IsUser(m) && w[m].hasAvatar && w[m].status != InGame
    requires MoveOrders(w, m, dir, enter, leave) && MoveHarmless(w, m, dir)
    ensures Inv(Move(w, m, dir, enter, leave))
  {
    var w' := Move(w, m, dir, enter, leave);
    forall i: Pid | i < ORDER_END_ALL ensures Formed(w'[i], i) {
      assert Formed(w[i], i) && Formed(w[m], m);
      MoveFormed(w, m, dir, enter, leave, i);
    }
    forall i: Pid | i < ORDER_END_ALL && i != m
      ensures w'[i].status == w[i].status && w'[i].at == w[i].at && (w[i].status != Free ==> w'[i] == w[i])
    {
      UnseenMoveTouches(w, m, dir, enter, leave, i);
    }
    forall v: Pid | IsUser(v) && w'[v].status == InGame ensures ViewAgrees(w', v) {
      assert ViewAgrees(w, v);
      UnseenAgrees(w, w', m, v);
    }
    forall v: Pid | IsUser(v) ensures Consistent(w', v, w'[v]) {
      assert Consistent(w, v, w[v]);
      if v == m {
        if w[m].status == Accepted {
          UnseenMoverConsistent(w, m, dir, enter, leave);
        }
      } else if w[v].status == InGame {
        assert ViewAgrees(w, v);
      }
    }
  }

  // Changing only sessions outside the game leaves an in-game user's agreement alone.
  lemma UnseenAgrees(w: World, w': World, m: Pid, v: Pid)
    requires IsUser(m) && IsUser(v) && v != m && w[v].status == InGame && w'[v] == w[v]
    requires w[m].status != InGame && w'[m].status != InGame
    requires forall i: Pid :: i < ORDER_END_ALL && i != m ==>
               w'[i].status == w[i].status && w'[i].at == w[i].at
    requires ViewAgrees(w, v)
    ensures ViewAgrees(w', v)
  {
  }

  lemma MoveExact(w: World, m: Pid, dir: Direction, enter: seq<Pid>, leave: seq<Pid>)
    requires Inv(w) && IsUser(m) && MoveOrders(w, m, dir, enter, leave)
    ensures Inv(Move(w, m, dir, enter, leave)) <==> MoveHarmless(w, m, dir)
  {
    var sight := Sight(w, MovedBody(w[m], dir), m);
    assert Formed(w[m], m);
    if w[m].status == InGame {
      InGameMoveKeeps(w, m, dir, enter, leave);
    } else if MoveHarmless(w, m, dir) {
      if w[m].hasAvatar {
        UnseenMoveKeeps(w, m, dir, enter, leave);
      }
    } else if sight != {} {
      var u :| u in sight;
      SeenGhostBreaks(w, m, dir, enter, leave, u);
    } else if w[m].status == Accepted && !(w[m].view <= {0}) {
      var o :| o in w[m].view && o != 0;
      StaleGhostBreaks(w, m, dir, enter, leave, o);
    } else {
      var o :| o in w[m].view && IsUser(o) && w[o].status == Accepted && m in w[o].view;
      StaleListerBreaks(w, m, dir, enter, leave, o);
    }
  }
}
