/** What must hold between events, and exactly which events keep it. */
module SightInvariant {
  import opened SightTypes
  import opened SightProtocol
  import opened ClientReplica

  predicate Formed(s: Session, i: Pid) {
    && i !in s.view
    && (forall o <- s.view :: o < ORDER_END_ALL)
    && (s.hasAvatar ==> InWorld(s.at))
    && (s.status != Free ==> s.hasAvatar)
    && (IsNpc(i) ==> s.status == InGame && s.view == {} && s.outbox == [])
  }

  // The view list of an in-game user against its definition.
  ghost predicate ViewAgrees(w: World, v: Pid)
    requires v < ORDER_END_ALL
  {
    && (forall u: Pid :: IsUser(u) ==>
          (u in w[v].view <==> u != v && w[u].status == InGame && Near(w[v], w[u])))
    && (forall n: Pid :: IsNpc(n) && n in w[v].view ==> Near(w[v], w[n]))
  }

  ghost predicate AllFormed(w: World) {
    forall i: Pid :: i < ORDER_END_ALL ==> Formed(w[i], i)
  }

  ghost predicate AllAgree(w: World) {
    forall v: Pid :: IsUser(v) && w[v].status == InGame ==> ViewAgrees(w, v)
  }

  ghost predicate AllConsistent(w: World) {
    forall v: Pid :: IsUser(v) ==> Consistent(w, v, w[v])
  }

  ghost predicate Inv(w: World) {
    AllFormed(w) && AllAgree(w) && AllConsistent(w)
  }

  lemma InitialInv()
    ensures Inv(InitialWorld())
  {
  }

  // ------------------------------------------------------------------ accept

  lemma AcceptKeeps(w: World)
    requires Inv(w)
    ensures Inv(Accept(w))
  {
    var slot := FirstFree(w, MAX_NPC);
    if slot.Some? {
      var c := slot.value;
      var w' := Accept(w);
      forall v: Pid | IsUser(v) && w'[v].status == InGame ensures ViewAgrees(w', v) {
        assert ViewAgrees(w, v);
      }
      forall v: Pid | IsUser(v) ensures Consistent(w', v, w'[v]) {
        assert Consistent(w, v, w[v]);
        if w'[v].status == InGame {
          assert ViewAgrees(w, v);
        }
      }
    }
  }

  // ------------------------------------------------------------------ disconnect

  lemma DisconnectAgrees(w: World, who: Pid, v: Pid)
    requires who < ORDER_END_ALL && IsUser(v) && v != who && w[v].status == InGame
    requires ViewAgrees(w, v)
    ensures ViewAgrees(Disconnect(w, who), v)
  {
  }

  lemma DisconnectConsistent(w: World, who: Pid, v: Pid)
    requires who < ORDER_END_ALL && IsUser(v) && v != who
    requires Consistent(w, v, w[v])
    ensures Consistent(Disconnect(w, who), v, Disconnect(w, who)[v])
  {
  }

  lemma DisconnectKeeps(w: World, who: Pid)
    requires Inv(w) && who < ORDER_END_ALL
    ensures Inv(Disconnect(w, who))
  {
    var w' := Disconnect(w, who);
    if w' != w {
      forall i: Pid | i < ORDER_END_ALL ensures Formed(w'[i], i) {
        assert Formed(w[i], i);
      }
      forall v: Pid | IsUser(v) && w'[v].status == InGame ensures ViewAgrees(w', v) {
        DisconnectAgrees(w, who, v);
      }
      forall v: Pid | IsUser(v) ensures Consistent(w', v, w'[v]) {
        if v != who {
          assert Consistent(w, v, w[v]);
          DisconnectConsistent(w, who, v);
        }
      }
    }
  }

  // ------------------------------------------------------------------ NPC step

  // An NPC's step changes nothing about a user but its list's entry for the NPC.
  lemma BehaveUserEntry(w: World, n: Pid, roll: nat, v: Pid, u: Pid)
    requires IsNpc(n) && roll < 5 && IsUser(v) && IsUser(u)
    ensures
      var w' := Behave(w, n, roll);
      && w'[u].status == w[u].status && w'[u].at == w[u].at
      && (u in w'[v].view <==> u in w[v].view)
  {
  }

  lemma BehaveNpcEntry(w: World, n: Pid, roll: nat, v: Pid, x: Pid)
    requires IsNpc(n) && roll < 5 && IsUser(v) && w[v].status == InGame && IsNpc(x)
    requires x in w[v].view ==> Near(w[v], w[x])
    ensures var w' := Behave(w, n, roll); x in w'[v].view ==> Near(w'[v], w'[x])
  {
  }

  lemma BehaveAgrees(w: World, n: Pid, roll: nat, v: Pid)
    requires IsNpc(n) && roll < 5 && IsUser(v) && w[v].status == InGame
    requires ViewAgrees(w, v)
    ensures ViewAgrees(Behave(w, n, roll), v)
  {
    var w' := Behave(w, n, roll);
    forall u: Pid | IsUser(u)
      ensures u in w'[v].view <==> u != v && w'[u].status == InGame && Near(w'[v], w'[u])
    {
      BehaveUserEntry(w, n, roll, v, u);
      BehaveUserEntry(w, n, roll, v, v);
    }
    forall x: Pid | IsNpc(x) && x in w'[v].view ensures Near(w'[v], w'[x]) {
      BehaveNpcEntry(w, n, roll, v, x);
    }
  }

  lemma BehaveConsistent(w: World, n: Pid, roll: nat, v: Pid)
    requires IsNpc(n) && roll < 5 && IsUser(v)
    requires Consistent(w, v, w[v])
    requires w[v].status == InGame ==> ViewAgrees(w, v)
    ensures Consistent(Behave(w, n, roll), v, Behave(w, n, roll)[v])
  {
    var w' := Behave(w, n, roll);
    if w[v].status == InGame {
      assert w'[n] == MovedBody(w[n], RollDirection(roll));
      TellKeepsTracking(w, w', v, w[v], w'[v], n);
    }
  }

  lemma BehaveFormed(w: World, n: Pid, roll: nat, i: Pid)
    requires IsNpc(n) && roll < 5 && i < ORDER_END_ALL
    requires Formed(w[i], i)
    ensures Formed(Behave(w, n, roll)[i], i)
  {
  }

  lemma BehaveKeeps(w: World, n: Pid, roll: nat)
    requires Inv(w) && IsNpc(n) && roll < 5
    ensures Inv(Behave(w, n, roll))
  {
    var w' := Behave(w, n, roll);
    forall i: Pid | i < ORDER_END_ALL ensures Formed(w'[i], i) {
      BehaveFormed(w, n, roll, i);
    }
    forall v: Pid | IsUser(v) && w'[v].status == InGame ensures ViewAgrees(w', v) {
      BehaveAgrees(w, n, roll, v);
    }
    forall v: Pid | IsUser(v) ensures Consistent(w', v, w'[v]) {
      BehaveConsistent(w, n, roll, v);
    }
  }

  // ------------------------------------------------------------------ login

  // The sessions below k that list c while in game.
  ghost function Observers(w: World, c: Pid, k: nat): (ids: set<Pid>)
    requires k <= ORDER_END_ALL
    ensures forall i: Pid :: i in ids <==> i < k && Sees(w, i, c)
  {
    set i: Pid | i < k && Sees(w, i, c)
  }

  lemma {:induction false} IntroducedFields(w: World, c: Pid, k: nat)
    requires c < ORDER_END_ALL && k <= ORDER_END_ALL
    ensures
      var s := Introduced(w, c, k);
      s == w[c].(view := w[c].view + Observers(w, c, k), outbox := s.outbox)
  {
    if k == 0 {
      assert w[c].view + Observers(w, c, 0) == w[c].view;
    } else {
      IntroducedFields(w, c, k - 1);
      var s := Introduced(w, c, k - 1);
      if Sees(w, k - 1, c) {
        assert w[c].view + Observers(w, c, k) == s.view + {k - 1};
      } else {
        assert Observers(w, c, k) == Observers(w, c, k - 1);
      }
    }
  }

  // The newcomer's client, which knew nothing, is shown its observers at the origin.
  ghost predicate ShownObservers(w: World, c: Pid, k: nat, r0: Replica, r: Replica)
    requires k <= ORDER_END_ALL
  {
    && (forall o: Pid :: o in r.known <==> o != 0 && o < k && Sees(w, o, c))
    && (forall o :: o in r.known ==> r.known[o] == Sighting(ORIGIN, false))
    && r.me == r0.me && r.faults == r0.faults
  }

  lemma {:induction false} IntroducedReplay(w: World, c: Pid, k: nat, r0: Replica)
    requires c < ORDER_END_ALL && k <= ORDER_END_ALL
    requires r0 == Replay(c, w[c].outbox) && r0.known == map[]
    ensures ShownObservers(w, c, k, r0, Replay(c, Introduced(w, c, k).outbox))
  {
    if k != 0 {
      IntroducedReplay(w, c, k - 1, r0);
      var s := Introduced(w, c, k - 1);
      var r := Replay(c, s.outbox);
      if Sees(w, k - 1, c) && k - 1 != 0 {
        var p := AddPacket(k - 1, w[k - 1].at);
        ReplayOne(c, NOTHING, s.outbox, p);
        assert ShownObservers(w, c, k, r0, Apply(c, r, p));
      } else {
        assert ShownObservers(w, c, k, r0, r);
      }
    }
  }

  // In-game users other than c that stand within range of the point.
  predicate AnyoneNear(w: World, c: Pid, at: Pos) {
    exists u: Pid :: MAX_NPC <= u < ORDER_END_ALL && NearUser(w, u, c, at)
  }

  predicate NearUser(w: World, u: Pid, c: Pid, at: Pos) {
    IsUser(u) && u != c && w[u].status == InGame && GridDistance(w[u].at, at) <= SIGHT_RANGE
  }

  /** The exact condition under which a CS_LOGIN keeps the invariant. Entries left in
      the slot's view list by its previous user must be users that are about to be
      introduced (or NPC 0 within range, which is never shown to anyone). If the older
      status is stored back at the end, nobody may have been told of the newcomer. */
  predicate LoginHarmless(rel: Release, w: World, c: Pid, spawn: Pos)
    requires IsUser(c)
  {
    match w[c].status
    case Free => true
    case InGame => rel.Keeps? || !AnyoneNear(w, c, w[c].at)
    case Accepted =>
      if rel.Keeps? then
        forall o <- w[c].view ::
          if o == 0 then GridDistance(w[0].at, spawn) <= SIGHT_RANGE else NearUser(w, o, c, spawn)
      else
        !AnyoneNear(w, c, spawn)
  }

  lemma LoginExact(rel: Release, w: World, c: Pid, spawn: Pos)
    requires Inv(w) && IsUser(c) && InWorld(spawn)
    ensures Inv(Login(rel, w, c, spawn)) <==> LoginHarmless(rel, w, c, spawn)
  {
    match w[c].status
    case Free =>
    case InGame => ReloginExact(rel, w, c, spawn);
    case Accepted => FirstLoginExact(rel, w, c, spawn);
  }

  // Nobody lists c, so forgetting it and storing the older status back is no change.
  lemma StoredReloginIdle(w: World, c: Pid, spawn: Pos)
    requires Inv(w) && IsUser(c) && w[c].status == InGame
    requires !AnyoneNear(w, c, w[c].at)
    ensures Login(Stores, w, c, spawn) == w
  {
    var w' := Login(Stores, w, c, spawn);
    forall i: Pid | i < ORDER_END_ALL ensures w'[i] == w[i] {
      if IsUser(i) && w[i].status == InGame && i != c {
        assert !NearUser(w, i, c, w[c].at);
        assert ViewAgrees(w, i);
      }
    }
  }

  lemma StoredReloginBreaks(w: World, c: Pid, spawn: Pos, u: Pid)
    requires IsUser(c) && w[c].status == InGame && NearUser(w, u, c, w[c].at)
    ensures !ViewAgrees(Login(Stores, w, c, spawn), u)
  {
  }

  lemma ReloginExact(rel: Release, w: World, c: Pid, spawn: Pos)
    requires Inv(w) && IsUser(c) && InWorld(spawn) && w[c].status == InGame
    ensures Inv(Login(rel, w, c, spawn)) <==> LoginHarmless(rel, w, c, spawn)
  {
    var w' := Login(rel, w, c, spawn);
    if rel.Keeps? {
      DisconnectKeeps(w, c);
      assert w' == Disconnect(w, c);
    } else if AnyoneNear(w, c, w[c].at) {
      var u: Pid :| IsUser(u) && NearUser(w, u, c, w[c].at);
      StoredReloginBreaks(w, c, spawn, u);
      assert w'[u].status == InGame;
    } else {
      StoredReloginIdle(w, c, spawn);
    }
  }

  // The table just before the status is released at the end of a first login.
  function LoggedIn(w: World, c: Pid, spawn: Pos): World
    requires c < ORDER_END_ALL
  {
    var w2 := Announce(w[c := Entered(w[c], c, spawn)], c);
    w2[c := Introduced(w2, c, ORDER_END_ALL)]
  }

  // In the announced table, exactly the in-game users near the spawn point list c.
  lemma ObserversAreNear(w: World, c: Pid, spawn: Pos, i: Pid)
    requires Inv(w) && IsUser(c) && w[c].status == Accepted && i < ORDER_END_ALL
    ensures Sees(Announce(w[c := Entered(w[c], c, spawn)], c), i, c) <==> NearUser(w, i, c, spawn)
  {
  }

  // What the newcomer's client has been shown at the end of a first login.
  ghost predicate ShownNeighbours(w: World, c: Pid, spawn: Pos, r: Replica) {
    && (forall o: Pid :: o in r.known <==> NearUser(w, o, c, spawn))
    && (forall o :: o in r.known ==> r.known[o] == Sighting(ORIGIN, false))
    && r.me == Some(spawn) && r.faults <= {0}
  }

  lemma NewcomerShown(w: World, c: Pid, spawn: Pos)
    requires Inv(w) && IsUser(c) && w[c].status == Accepted
    ensures ShownNeighbours(w, c, spawn, Replay(c, LoggedIn(w, c, spawn)[c].outbox))
  {
    var w1: World := w[c := Entered(w[c], c, spawn)];
    var w2 := Announce(w1, c);
    assert Consistent(w, c, w[c]);
    ReplayOne(c, NOTHING, w[c].outbox, LoginOk(c, spawn));
    var r0 := Replay(c, w1[c].outbox);
    IntroducedReplay(w2, c, ORDER_END_ALL, r0);
    forall o: Pid | o < ORDER_END_ALL ensures Sees(w2, o, c) <==> NearUser(w, o, c, spawn) {
      ObserversAreNear(w, c, spawn, o);
    }
  }

  lemma LoggedInExactly(w: World, c: Pid, spawn: Pos)
    requires Inv(w) && IsUser(c) && w[c].status == Accepted
    ensures
      var w' := LoggedIn(w, c, spawn);
      && (forall i: Pid :: i < ORDER_END_ALL && i != c ==> w'[i] == Greeted(w[i], i, c, w[c].(at := spawn)))
      && w'[c] == Session(InGame, true, spawn, w'[c].view, w'[c].outbox)
      && (forall o: Pid :: o in w'[c].view <==> o in w[c].view || NearUser(w, o, c, spawn))
  {
    var w1: World := w[c := Entered(w[c], c, spawn)];
    var w2 := Announce(w1, c);
    IntroducedFields(w2, c, ORDER_END_ALL);
    forall o: Pid | o < ORDER_END_ALL ensures Sees(w2, o, c) <==> NearUser(w, o, c, spawn) {
      ObserversAreNear(w, c, spawn, o);
    }
  }

  lemma FirstLoginFormed(rel: Release, w: World, c: Pid, spawn: Pos, i: Pid)
    requires Inv(w) && IsUser(c) && InWorld(spawn) && w[c].status == Accepted && i < ORDER_END_ALL
    ensures Formed(Login(rel, w, c, spawn)[i], i)
  {
    LoggedInExactly(w, c, spawn);
    assert Formed(w[i], i);
  }

  // Any other in-game user lists the newcomer exactly when it stands near.
  lemma FirstLoginAgrees(rel: Release, w: World, c: Pid, spawn: Pos, v: Pid)
    requires Inv(w) && IsUser(c) && InWorld(spawn) && w[c].status == Accepted
    requires IsUser(v) && v != c && w[v].status == InGame
    ensures ViewAgrees(Login(rel, w, c, spawn), v) <==> rel.Keeps? || !NearUser(w, v, c, spawn)
  {
    LoggedInExactly(w, c, spawn);
    var w' := Login(rel, w, c, spawn);
    assert ViewAgrees(w, v);
    assert c !in w[v].view;
    assert c in w'[v].view <==> NearUser(w, v, c, spawn);
    assert w'[c].status == (if rel.Keeps? then InGame else Accepted);
    forall u: Pid | IsUser(u) && u != c
      ensures u in w'[v].view <==> u != v && w'[u].status == InGame && Near(w'[v], w'[u])
    {
      assert w'[u].status == w[u].status && w'[u].at == w[u].at;
    }
    forall n: Pid | IsNpc(n) && n in w'[v].view ensures Near(w'[v], w'[n]) {
      assert n in w[v].view && w'[n] == w[n];
    }
  }

  lemma FirstLoginConsistent(rel: Release, w: World, c: Pid, spawn: Pos, v: Pid)
    requires Inv(w) && IsUser(c) && InWorld(spawn) && w[c].status == Accepted
    requires IsUser(v) && v != c
    ensures Consistent(Login(rel, w, c, spawn), v, Login(rel, w, c, spawn)[v])
  {
  }

  // The newcomer's list is right exactly if what is left over in it is in range.
  lemma NewcomerAgreesExactly(w: World, c: Pid, spawn: Pos)
    requires Inv(w) && IsUser(c) && InWorld(spawn) && w[c].status == Accepted
    ensures
      ViewAgrees(Login(Keeps, w, c, spawn), c) <==>
      forall o <- w[c].view ::
        if IsUser(o) then NearUser(w, o, c, spawn) else GridDistance(w[o].at, spawn) <= SIGHT_RANGE
  {
    LoggedInExactly(w, c, spawn);
    var w' := Login(Keeps, w, c, spawn);
    assert w' == LoggedIn(w, c, spawn);
    assert Formed(w[c], c);
    forall u: Pid | IsUser(u) && u != c
      ensures NearUser(w, u, c, spawn) <==> w'[u].status == InGame && Near(w'[c], w'[u])
    {
      assert w'[u].status == w[u].status && w'[u].at == w[u].at;
    }
    forall n: Pid | IsNpc(n) ensures Near(w'[c], w'[n]) <==> GridDistance(w[n].at, spawn) <= SIGHT_RANGE {
      assert w'[n] == w[n];
    }
  }

  // A client shown its neighbours is right about a list that holds them and what was left
  // over exactly if that is among them, NPC 0 apart.
  lemma ShownIsExact(w: World, w': World, c: Pid, spawn: Pos, s: Session, r: Replica)
    requires IsUser(c) && ShownNeighbours(w, c, spawn, r) && s.at == spawn
    requires forall o: Pid :: o in s.view <==> o in w[c].view || NearUser(w, o, c, spawn)
    ensures Exact(w', s, r) <==> forall o <- w[c].view :: o == 0 || NearUser(w, o, c, spawn)
  {
    if forall o <- w[c].view :: o == 0 || NearUser(w, o, c, spawn) {
      assert r.known.Keys == s.view - {0};
    } else {
      var o :| o in w[c].view && !(o == 0 || NearUser(w, o, c, spawn));
      assert o in s.view - {0} && o !in r.known;
    }
  }

  // The newcomer's client is right exactly if what is left over is about to be introduced.
  lemma NewcomerTracksExactly(w: World, c: Pid, spawn: Pos)
    requires Inv(w) && IsUser(c) && InWorld(spawn) && w[c].status == Accepted
    ensures
      var w' := Login(Keeps, w, c, spawn);
      Consistent(w', c, w'[c]) <==> forall o <- w[c].view :: o == 0 || NearUser(w, o, c, spawn)
  {
    LoggedInExactly(w, c, spawn);
    NewcomerShown(w, c, spawn);
    var w' := Login(Keeps, w, c, spawn);
    assert w' == LoggedIn(w, c, spawn);
    ShownIsExact(w, w', c, spawn, w'[c], Replay(c, w'[c].outbox));
  }

  // The newcomer itself is right exactly when nothing stale is left in its list.
  lemma NewcomerExact(w: World, c: Pid, spawn: Pos)
    requires Inv(w) && IsUser(c) && InWorld(spawn) && w[c].status == Accepted
    ensures
      var w' := Login(Keeps, w, c, spawn);
      ViewAgrees(w', c) && Consistent(w', c, w'[c]) <==> LoginHarmless(Keeps, w, c, spawn)
  {
    NewcomerAgreesExactly(w, c, spawn);
    NewcomerTracksExactly(w, c, spawn);
    assert Formed(w[c], c);
  }

  // With the older status stored back and nobody near, the client is left with nothing.
  lemma StoredNewcomer(w: World, c: Pid, spawn: Pos)
    requires Inv(w) && IsUser(c) && InWorld(spawn) && w[c].status == Accepted
    requires !AnyoneNear(w, c, spawn)
    ensures KnowsNothing(c, Login(Stores, w, c, spawn)[c])
  {
    LoggedInExactly(w, c, spawn);
    NewcomerShown(w, c, spawn);
    var r := Replay(c, LoggedIn(w, c, spawn)[c].outbox);
    assert forall o: Pid :: o !in r.known;
    assert r.known == map[];
  }

  // The others after a first login, whatever is done with the status.
  lemma FirstLoginOthers(rel: Release, w: World, c: Pid, spawn: Pos)
    requires Inv(w) && IsUser(c) && InWorld(spawn) && w[c].status == Accepted
    ensures
      var w' := Login(rel, w, c, spawn);
      && AllFormed(w')
      && (forall v: Pid :: IsUser(v) && v != c ==> Consistent(w', v, w'[v]))
      && (forall v: Pid :: IsUser(v) && v != c && w'[v].status == InGame ==>
            (ViewAgrees(w', v) <==> rel.Keeps? || !NearUser(w, v, c, spawn)))
      && (forall v: Pid :: NearUser(w, v, c, spawn) ==> w'[v].status == InGame)
  {
    var w' := Login(rel, w, c, spawn);
    LoggedInExactly(w, c, spawn);
    forall i: Pid | i < ORDER_END_ALL ensures Formed(w'[i], i) {
      FirstLoginFormed(rel, w, c, spawn, i);
    }
    forall v: Pid | IsUser(v) && v != c ensures Consistent(w', v, w'[v]) {
      FirstLoginConsistent(rel, w, c, spawn, v);
    }
    forall v: Pid | IsUser(v) && v != c && w'[v].status == InGame
      ensures ViewAgrees(w', v) <==> rel.Keeps? || !NearUser(w, v, c, spawn)
    {
      FirstLoginAgrees(rel, w, c, spawn, v);
    }
  }

  lemma FirstLoginExact(rel: Release, w: World, c: Pid, spawn: Pos)
    requires Inv(w) && IsUser(c) && InWorld(spawn) && w[c].status == Accepted
    ensures Inv(Login(rel, w, c, spawn)) <==> LoginHarmless(rel, w, c, spawn)
  {
    var w' := Login(rel, w, c, spawn);
    FirstLoginOthers(rel, w, c, spawn);
    LoggedInExactly(w, c, spawn);
    assert w'[c].status == (if rel.Keeps? then InGame else Accepted);
    if rel.Keeps? {
      NewcomerExact(w, c, spawn);
    } else if AnyoneNear(w, c, spawn) {
      var u: Pid :| IsUser(u) && NearUser(w, u, c, spawn);
      assert !ViewAgrees(w', u);
    } else {
      StoredNewcomer(w, c, spawn);
    }
  }
}
