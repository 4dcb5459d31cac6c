/** The handlers themselves, on sessions that are updated in place, each proved to take
    the table of sessions where the protocol says. */
module SightServer {
  import opened SightTypes
  import P = SightProtocol
  import W = SightSweep
  import L = SightLoops
  import V = SightInvariant
  import M = SightMoves
  import S = SightSteps

  // What a client asks for; chat and combat packets fall through the switch.
  datatype ClientPacket = CsLogin(spawn: Pos) | CsMove(dir: Direction) | Ignored

  class LiveSession {
    const id: Pid
    var status: Status
    var hasAvatar: bool
    var x: int
    var y: int
    var view: set<Pid>
    ghost var outbox: seq<Packet>

    ghost function State(): Session
      reads this
    {
      Session(status, hasAvatar, Pos(x, y), view, outbox)
    }

    constructor (id: Pid)
      ensures this.id == id && State() == BLANK
    {
      this.id := id;
      status, hasAvatar, x, y, view, outbox := Free, false, 0, 0, {}, [];
    }

    method SendAddObject(who: Pid, other: LiveSession)
      modifies this`outbox
      ensures State() == P.SendAdd(old(State()), who, old(other.State()))
    {
      if who <= 0 {
        return;
      }
      outbox := outbox + [P.AddPacket(who, Pos(other.x, other.y))];
    }

    method SendMovePacket(who: Pid, other: LiveSession)
      modifies this`outbox
      ensures State() == P.SendMove(old(State()), who, old(other.State()))
    {
      if who <= 0 {
        return;
      }
      outbox := outbox + [MoveObject(who, Pos(other.x, other.y))];
    }

    method SendRemoveObject(who: Pid)
      modifies this`outbox
      ensures State() == P.SendRemove(old(State()), who)
    {
      outbox := outbox + [RemoveObject(who)];
    }

    method StepAvatar(dir: Direction)
      modifies this`x, this`y
      ensures State() == P.MovedBody(old(State()), dir)
      ensures dir == Left ==> y == old(y) && (old(x) > 0 ==> x == old(x) - 1) && (old(x) <= 0 ==> x == old(x))
      ensures dir == Right ==> y == old(y) && (old(x) < 1999 ==> x == old(x) + 1) && (old(x) >= 1999 ==> x == old(x))
      ensures dir == Up ==> x == old(x) && (old(y) > 0 ==> y == old(y) - 1) && (old(y) <= 0 ==> y == old(y))
      ensures dir == Down ==> x == old(x) && (old(y) < 1999 ==> y == old(y) + 1) && (old(y) >= 1999 ==> y == old(y))
      ensures dir == Still ==> x == old(x) && y == old(y)
    {
      match dir
      case Still =>
      case Left => if x > 0 { x := x - 1; }
      case Right => if x < W_WIDTH - 1 { x := x + 1; }
      case Up => if y > 0 { y := y - 1; }
      case Down => if y < W_HEIGHT - 1 { y := y + 1; }
    }
  }

  class Server {
    const clients: seq<LiveSession>

    ghost predicate Valid()
    {
      |clients| == ORDER_END_ALL && forall i :: 0 <= i < |clients| ==> clients[i].id == i
    }

    ghost function Table(): World
      requires Valid()
      reads clients
    {
      seq(ORDER_END_ALL, i requires 0 <= i < ORDER_END_ALL reads clients => clients[i].State())
    }

    // BuildSessions and BuildNPCs.
    constructor ()
      ensures Valid() && Table() == P.InitialWorld()
      ensures forall s <- clients :: fresh(s)
      ensures forall i :: 0 <= i < |clients| ==>
        var s := clients[i];
        && s.view == {} && s.outbox == []
        && (if i < 200000 then s.status == InGame && s.hasAvatar && s.x == 4 && s.y == 4
            else s.status == Free && !s.hasAvatar)
    {
      var built: seq<LiveSession> := [];
      while |built| < ORDER_END_ALL
        invariant |built| <= ORDER_END_ALL
        invariant forall i :: 0 <= i < |built| ==> fresh(built[i]) && built[i].id == i && built[i].State() == BLANK
      {
        var s := new LiveSession(|built|);
        built := built + [s];
      }
      clients := built;
      new;
      for i := 0 to MAX_NPC
        invariant forall s <- clients :: fresh(s)
        invariant forall j :: 0 <= j < ORDER_END_ALL ==>
          clients[j].State() == if j < i then P.InitialWorld()[j] else BLANK
      {
        var npc := clients[i];
        npc.x, npc.y, npc.hasAvatar := 4, 4, true;
        npc.status := InGame;
      }
    }

    function Distance(a: Pid, b: Pid): (d: int)
      requires Valid() && a < ORDER_END_ALL && b < ORDER_END_ALL
      reads clients
      ensures d == GridDistance(Table()[a].at, Table()[b].at)
      ensures
        var dx, dy := clients[a].x - clients[b].x, clients[a].y - clients[b].y;
        d >= dx + dy && d >= dx - dy && d >= dy - dx && d >= -dx - dy && d in {dx + dy, dx - dy, dy - dx, -dx - dy}
    {
      Abs(clients[a].x - clients[b].x) + Abs(clients[a].y - clients[b].y)
    }

    method PrepareSlot(newbie: LiveSession)
      modifies newbie
      ensures newbie.State() == Session(Accepted, true, Pos(4, 4), old(newbie.view), [])
    {
      newbie.status := Accepted;
      newbie.x, newbie.y, newbie.hasAvatar := 4, 4, true;
      newbie.outbox := [];
    }

    // MakeNewbieID: the lowest free user slot.
    method FindFree() returns (slot: Option<Pid>)
      requires Valid()
      ensures slot == P.FirstFree(Table(), MAX_NPC)
    {
      var i := MAX_NPC;
      while i < ORDER_END_ALL
        invariant MAX_NPC <= i <= ORDER_END_ALL
        invariant P.FirstFree(Table(), MAX_NPC) == P.FirstFree(Table(), i)
      {
        if clients[i].status == Free {
          return Some(i);
        }
        i := i + 1;
      }
      return None;
    }

    // MakeNewbieID followed by the part of ProceedAccept that prepares the slot.
    method Accept() returns (slot: Option<Pid>)
      requires Valid()
      modifies clients
      ensures Table() == P.Accept(old(Table()))
      ensures slot == P.FirstFree(old(Table()), MAX_NPC)
      ensures slot.Some? ==>
        var s := clients[slot.value];
        && old(s.status) == Free && s.status == Accepted && s.hasAvatar && s.x == 4 && s.y == 4
        && s.view == old(s.view) && s.outbox == []
    {
      slot := FindFree();
      if slot.Some? {
        PrepareSlot(clients[slot.value]);
      }
    }

    // Throws for an identifier that is not a player's.
    method Disconnect(who: Pid) returns (thrown: bool)
      requires Valid() && who < ORDER_END_ALL
      modifies clients
      ensures Table() == P.Disconnect(old(Table()), who)
      ensures thrown <==> !IsPlayer(who)
    {
      if !IsPlayer(who) {
        return true;
      }
      var session := clients[who];
      ghost var w := Table();
      assert w[who] == session.State();
      if session.status == Free {
        return false;
      }
      for i := MAX_NPC to ORDER_END_ALL
        invariant forall j :: 0 <= j < ORDER_END_ALL ==>
          clients[j].State() == if j < i && j != who then P.Forgotten(w[j], j, who) else w[j]
      {
        if i != who {
          var other := clients[i];
          if other.status == InGame && who in other.view {
            other.view := other.view - {who};
            other.SendRemoveObject(who);
          }
        }
      }
      session.status := Free;
      return false;
    }

    // CS_LOGIN; `rel` is what the release at the end does with the older status.
    method Login(rel: P.Release, c: Pid, spawn: Pos)
      requires Valid() && IsUser(c)
      modifies clients
      ensures Table() == P.Login(rel, old(Table()), c, spawn)
    {
      var session := clients[c];
      var older := session.status;
      match older {
        case Free =>
        case InGame =>
          var thrown := Disconnect(c);
          Release(rel, c, older);
        case Accepted =>
          Enter(c, spawn);
          AnnounceNewbie(c);
          IntroduceNewbie(c);
          Release(rel, c, older);
      }
    }

    method Release(rel: P.Release, c: Pid, older: Status)
      requires Valid() && IsUser(c)
      modifies clients[c]
      ensures Table() == old(Table())[c := P.Released(rel, old(Table()[c]), older)]
    {
      if rel.Stores? {
        clients[c].status := older;
      }
    }

    method Enter(c: Pid, spawn: Pos)
      requires Valid() && IsUser(c)
      modifies clients[c]
      ensures Table() == old(Table())[c := P.Entered(old(Table()[c]), c, spawn)]
    {
      var session := clients[c];
      session.status := InGame;
      session.hasAvatar, session.x, session.y := true, spawn.x, spawn.y;
      session.outbox := session.outbox + [LoginOk(c, Pos(session.x, session.y))];
    }

    method AnnounceNewbie(c: Pid)
      requires Valid() && IsUser(c)
      modifies clients
      ensures Table() == P.Announce(old(Table()), c)
    {
      ghost var w := Table();
      for i := MAX_NPC to ORDER_END_ALL
        invariant forall j :: 0 <= j < ORDER_END_ALL ==>
          clients[j].State() == if j < i && j != c then P.Greeted(w[j], j, c, w[c]) else w[j]
      {
        if i != c {
          var other := clients[i];
          if other.status == InGame && Distance(c, i) <= SIGHT_RANGE {
            other.view := other.view + {c};
            other.SendAddObject(c, clients[c]);
          }
        }
      }
    }

    method IntroduceNewbie(c: Pid)
      requires Valid() && IsUser(c)
      modifies clients[c]
      ensures Table() == old(Table())[c := P.Introduced(old(Table()), c, ORDER_END_ALL)]
    {
      ghost var w := Table();
      var session := clients[c];
      for i := 0 to ORDER_END_ALL
        invariant session.State() == P.Introduced(w, c, i)
        invariant forall j :: 0 <= j < ORDER_END_ALL && j != c ==> clients[j].State() == w[j]
      {
        var other := clients[i];
        if i != c && other.status == InGame && c in other.view {
          session.view := session.view + {other.id};
          session.SendAddObject(other.id, other);
        }
      }
    }

    // The other in-game users within range of session m, by a scan of all users.
    method ScanSight(m: Pid) returns (found: set<Pid>)
      requires Valid() && m < ORDER_END_ALL
      ensures found == P.Sight(Table(), Table()[m], m)
      ensures forall u :: u in found <==>
        && 200000 <= u < 210000 && u != m && clients[u].status == InGame
        && S.WithinSeven(Pos(clients[m].x, clients[m].y), Pos(clients[u].x, clients[u].y))
    {
      found := {};
      for i := MAX_NPC to ORDER_END_ALL
        invariant forall u :: u in found <==>
          MAX_NPC <= u < i && u != m && Table()[u].status == InGame && Near(Table()[m], Table()[u])
      {
        if i != m && clients[i].status == InGame && Distance(m, i) <= SIGHT_RANGE {
          found := found + {i};
        }
      }
      forall u | u in P.Sight(Table(), Table()[m], m) || (MAX_NPC <= u < ORDER_END_ALL)
        ensures Near(Table()[m], Table()[u]) <==>
                S.WithinSeven(Pos(clients[m].x, clients[m].y), Pos(clients[u].x, clients[u].y))
      {
        S.NearExactly(Table()[m], Table()[u]);
      }
    }

    // Mover m and session o of its new sight meet.
    method EnterOne(m: Pid, o: Pid)
      requires Valid() && IsUser(m) && IsUser(o) && m != o
      modifies clients[m], clients[o]
      ensures
        var w := old(Table());
        Table() == w[m := P.Shown(w[m], o, w[o])][o := P.Shown(w[o], m, w[m])]
    {
      var session, other := clients[m], clients[o];
      if o !in session.view {
        session.view := session.view + {o};
        session.SendAddObject(o, other);
      } else {
        session.SendMovePacket(o, other);
      }
      if IsPlayer(o) {
        if m !in other.view {
          other.view := other.view + {m};
          other.SendAddObject(m, session);
        } else {
          other.SendMovePacket(m, session);
        }
      }
    }

    // Mover m and session o of its old sight part.
    method LeaveOne(m: Pid, o: Pid)
      requires Valid() && IsUser(m) && o < ORDER_END_ALL && m != o
      modifies clients[m], clients[o]
      ensures
        var w := old(Table());
        Table() == w[m := P.Lost(w[m], o)][o := if IsPlayer(o) then P.Lost(w[o], m) else w[o]]
    {
      var session, other := clients[m], clients[o];
      if o in session.view {
        session.view := session.view - {o};
        session.SendRemoveObject(o);
      }
      if IsPlayer(o) {
        if m in other.view {
          other.view := other.view - {m};
          other.SendRemoveObject(m);
        }
      }
    }

    // The first loop of CS_MOVE, over the new sight.
    method EnterSight(m: Pid, sight: set<Pid>) returns (ghost enter: seq<Pid>)
      requires Valid() && IsUser(m) && forall o <- sight :: IsUser(o) && o != m
      modifies clients
      ensures L.Entering(old(Table()), Table(), m, sight, enter)
    {
      ghost var w := Table();
      enter := [];
      L.EnterNobody(w, m);
      var todo := sight;
      assert sight - todo == {};
      while todo != {}
        invariant todo <= sight && L.Entering(w, Table(), m, sight - todo, enter)
        decreases todo
      {
        var o :| o in todo;
        ghost var w1 := Table();
        EnterOne(m, o);
        L.EnterOneMore(w, w1, Table(), m, sight - todo, enter, o);
        assert sight - (todo - {o}) == (sight - todo) + {o};
        enter := enter + [o];
        todo := todo - {o};
      }
      assert sight - todo == sight;
    }

    // The second loop of CS_MOVE, over the old sight without what is still seen.
    method LeaveSight(m: Pid, oldSight: set<Pid>, sight: set<Pid>) returns (ghost leave: seq<Pid>)
      requires Valid() && IsUser(m) && forall o <- oldSight :: o < ORDER_END_ALL && o != m
      requires oldSight <= clients[m].view
      modifies clients
      ensures L.Leaving(old(Table()), Table(), m, oldSight - sight, leave)
    {
      ghost var w := Table();
      leave := [];
      L.LeaveNobody(w, m);
      var todo := oldSight;
      assert oldSight - todo - sight == {};
      while todo != {}
        invariant todo <= oldSight && L.Leaving(w, Table(), m, oldSight - todo - sight, leave)
        decreases todo
      {
        var o :| o in todo;
        if o !in sight {
          ghost var w1 := Table();
          LeaveOne(m, o);
          L.LeaveOneMore(w, w1, Table(), m, oldSight - todo - sight, leave, o);
          leave := leave + [o];
          assert oldSight - (todo - {o}) - sight == (oldSight - todo - sight) + {o};
        } else {
          assert oldSight - (todo - {o}) - sight == oldSight - todo - sight;
        }
        todo := todo - {o};
      }
      assert oldSight - todo - sight == oldSight - sight;
    }

    // The mover's step and the packet that tells its own client.
    method StepMover(m: Pid, dir: Direction)
      requires Valid() && IsUser(m)
      modifies clients[m]
      ensures
        var w := old(Table());
        Table() == w[m := P.SendMove(P.MovedBody(w[m], dir), m, P.MovedBody(w[m], dir))]
    {
      clients[m].StepAvatar(dir);
      clients[m].SendMovePacket(m, clients[m]);
    }

    // CS_MOVE. The hash sets are walked in an order of their own, returned as ghosts.
    method Move(m: Pid, dir: Direction) returns (ghost enter: seq<Pid>, ghost leave: seq<Pid>)
      requires Valid() && IsUser(m)
      requires forall o <- Table()[m].view :: o < ORDER_END_ALL && o != m
      modifies clients
      ensures P.MoveOrders(old(Table()), m, dir, enter, leave)
      ensures Table() == P.Move(old(Table()), m, dir, enter, leave)
    {
      ghost var w := Table();
      ghost var aim := P.Sight(w, P.MovedBody(w[m], dir), m);
      var session := clients[m];
      assert w[m] == session.State();
      if !session.hasAvatar {
        enter, leave := P.AnyOrder(aim), P.AnyOrder(w[m].view - aim);
        return;
      }
      var oldSight := session.view;
      StepMover(m, dir);
      ghost var w1 := Table();
      var sight := ScanSight(m);
      assert sight == aim;
      enter := EnterSight(m, sight);
      ghost var w2 := Table();
      leave := LeaveSight(m, oldSight, sight);
      L.LoopsMakeTheMove(w, w1, w2, Table(), m, dir, enter, leave);
    }

    // One session that sees the NPC now: inserted and added, or moved.
    method ShowTo(u: Pid, n: Pid)
      requires Valid() && IsNpc(n) && IsUser(u)
      modifies clients[u]
      ensures Table() == old(Table())[u := P.Shown(old(Table()[u]), n, old(Table()[n]))]
    {
      var session, npc := clients[u], clients[n];
      if n !in session.view {
        session.view := session.view + {n};
        session.SendAddObject(n, npc);
      } else {
        session.SendMovePacket(n, npc);
      }
    }

    // One session that saw the NPC and does not any more.
    method HideFrom(u: Pid, n: Pid)
      requires Valid() && IsUser(u)
      modifies clients[u]
      ensures Table() == old(Table())[u := P.Lost(old(Table()[u]), n)]
    {
      var session := clients[u];
      if n in session.view {
        session.view := session.view - {n};
        session.SendRemoveObject(n);
      }
    }

    // The first loop of BehaveNPC: the sessions that see it now are told of it.
    method ShowToWatchers(n: Pid, newList: set<Pid>, ghost w: World)
      requires Valid() && IsNpc(n)
      requires L.Watching(w, Table(), n, Table()[n], {})
      requires newList == P.Sight(w, Table()[n], n)
      modifies clients
      ensures L.Watching(w, Table(), n, old(Table()[n]), newList)
    {
      ghost var after := Table()[n];
      var todo := newList;
      assert newList - todo == {};
      while todo != {}
        invariant todo <= newList && L.Watching(w, Table(), n, after, newList - todo)
        decreases todo
      {
        var u :| u in todo;
        ghost var w1 := Table();
        ShowTo(u, n);
        L.WatchOneMore(w, w1, Table(), n, after, newList - todo, u);
        assert newList - (todo - {u}) == (newList - todo) + {u};
        todo := todo - {u};
      }
      assert newList - todo == newList;
    }

    // The second loop of BehaveNPC: those that saw it and do not any more lose it.
    method HideFromWatchers(n: Pid, oldList: set<Pid>, newList: set<Pid>, ghost w: World)
      requires Valid() && IsNpc(n)
      requires L.Watching(w, Table(), n, Table()[n], newList)
      requires newList == P.Sight(w, Table()[n], n) && oldList <= P.Sight(w, w[n], n)
      modifies clients
      ensures L.Watching(w, Table(), n, old(Table()[n]), newList + oldList)
    {
      ghost var after := Table()[n];
      var todo := oldList;
      assert newList + (oldList - todo) == newList;
      while todo != {}
        invariant todo <= oldList && L.Watching(w, Table(), n, after, newList + (oldList - todo))
        decreases todo
      {
        var u :| u in todo;
        if u !in newList {
          ghost var w1 := Table();
          HideFrom(u, n);
          L.WatchOneMore(w, w1, Table(), n, after, newList + (oldList - todo), u);
          assert newList + (oldList - (todo - {u})) == newList + (oldList - todo) + {u};
        } else {
          assert newList + (oldList - (todo - {u})) == newList + (oldList - todo);
        }
        todo := todo - {u};
      }
      assert newList + (oldList - todo) == newList + oldList;
    }

    method BehaveNpc(n: Pid, roll: nat)
      requires Valid() && IsNpc(n) && roll < 5
      modifies clients
      ensures Table() == P.Behave(old(Table()), n, roll)
    {
      ghost var w := Table();
      var oldList := ScanSight(n);
      clients[n].StepAvatar(P.RollDirection(roll));
      ghost var after := P.MovedBody(w[n], P.RollDirection(roll));
      assert Table() == w[n := after];
      var newList := ScanSight(n);
      assert newList == P.Sight(w, after, n);
      ShowToWatchers(n, newList, w);
      HideFromWatchers(n, oldList - newList, newList, w);
      L.AllWatched(w, Table(), n, roll, newList + (oldList - newList));
    }

    // One pass of the heartbeat, with the rolls it draws.
    method HeartBeat(rolls: seq<nat>)
      requires Valid() && W.Rolls(rolls)
      modifies clients
      ensures Table() == W.Swept(old(Table()), rolls, MAX_NPC)
    {
      for n := 0 to MAX_NPC
        invariant Table() == W.Swept(old(Table()), rolls, n)
      {
        BehaveNpc(n, rolls[n]);
      }
    }

    /** process_packet, with the spawn point a login draws. From a table that is right, the
        table stays right exactly when the packet was harmless. */
    method ProcessPacket(rel: P.Release, c: Pid, packet: ClientPacket) returns (ghost enter: seq<Pid>, ghost leave: seq<Pid>)
      requires Valid() && IsUser(c) && V.Inv(Table())
      requires packet.CsLogin? ==> InWorld(packet.spawn)
      modifies clients
      ensures V.Inv(Table()) <==> (
        match packet
        case CsLogin(spawn) => V.LoginHarmless(rel, old(Table()), c, spawn)
        case CsMove(dir) => M.MoveHarmless(old(Table()), c, dir)
        case Ignored => true)
      ensures
        match packet
        case CsLogin(spawn) => Table() == P.Login(rel, old(Table()), c, spawn)
        case CsMove(dir) =>
          P.MoveOrders(old(Table()), c, dir, enter, leave) && Table() == P.Move(old(Table()), c, dir, enter, leave)
        case Ignored => Table() == old(Table())
    {
      ghost var w := Table();
      enter, leave := [], [];
      match packet {
        case CsLogin(spawn) =>
          V.LoginExact(rel, w, c, spawn);
          Login(rel, c, spawn);
        case CsMove(dir) =>
          assert V.Formed(w[c], c);
          enter, leave := Move(c, dir);
          M.MoveExact(w, c, dir, enter, leave);
        case Ignored =>
      }
    }
  }
}
