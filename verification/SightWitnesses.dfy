/** Concrete runs behind each condition: what goes wrong without it. */
module SightWitnesses {
  import opened SightTypes
  import opened SightProtocol
  import opened ClientReplica

  const FIRST: Pid := MAX_NPC
  const SECOND: Pid := MAX_NPC + 1

  // The initial table but for its first two user slots.
  function Table(a: Session, b: Session): (w: World)
    ensures w[FIRST] == a && w[SECOND] == b
    ensures forall i: Pid :: i < ORDER_END_ALL && i != FIRST && i != SECOND ==> w[i] == InitialWorld()[i]
  {
    InitialWorld()[FIRST := a][SECOND := b]
  }

  lemma SameTable(w: World, a: Session, b: Session)
    requires w[FIRST] == a && w[SECOND] == b
    requires forall i: Pid :: i < ORDER_END_ALL && i != FIRST && i != SECOND ==> w[i] == Table(BLANK, BLANK)[i]
    ensures w == Table(a, b)
  {
  }

  lemma {:induction false} RunOneMore(rel: Release, w: World, run: seq<Event>, e: Event)
    requires PossibleRun(rel, w, run) && Possible(Run(rel, w, run), e)
    ensures PossibleRun(rel, w, run + [e])
    ensures Run(rel, w, run + [e]) == Step(rel, Run(rel, w, run), e)
    decreases |run|
  {
    var longer := run + [e];
    if run == [] {
      assert longer[1..] == [];
    } else {
      RunOneMore(rel, Step(rel, w, run[0]), run[1..], e);
      assert longer[0] == run[0] && longer[1..] == run[1..] + [e];
    }
  }

  ghost predicate Reaches(run: seq<Event>, w: World) {
    PossibleRun(Keeps, InitialWorld(), run) && Run(Keeps, InitialWorld(), run) == w
  }

  lemma ReachesNext(run: seq<Event>, w: World, e: Event, w': World)
    requires Reaches(run, w) && Possible(w, e) && Step(Keeps, w, e) == w'
    ensures Reaches(run + [e], w')
  {
    RunOneMore(Keeps, InitialWorld(), run, e);
  }

  // ------------------------------------------------- one event on such a table

  function Fresh(s: Session): Session {
    Session(Accepted, true, Pos(4, 4), s.view, [])
  }

  // The first user slot is accepted, or the second when the first is taken.
  lemma AcceptFirst(a: Session, b: Session)
    requires a.status == Free
    ensures Accept(Table(a, b)) == Table(Fresh(a), b)
  {
    assert FirstFree(Table(a, b), MAX_NPC) == Some(FIRST);
    SameTable(Accept(Table(a, b)), Fresh(a), b);
  }

  lemma AcceptSecond(a: Session, b: Session)
    requires a.status != Free && b.status == Free
    ensures Accept(Table(a, b)) == Table(a, Fresh(b))
  {
    assert FirstFree(Table(a, b), MAX_NPC + 1) == Some(SECOND);
    assert FirstFree(Table(a, b), MAX_NPC) == Some(SECOND);
    SameTable(Accept(Table(a, b)), a, Fresh(b));
  }

  lemma {:induction false} IntroducedAmong(w: World, c: Pid, u: Pid, k: nat)
    requires IsUser(c) && IsUser(u) && c != u && k <= ORDER_END_ALL
    requires forall i: Pid :: i < ORDER_END_ALL && i != u ==> !Sees(w, i, c)
    ensures
      Introduced(w, c, k) ==
      if u < k && Sees(w, u, c) then w[c].(view := w[c].view + {u}, outbox := w[c].outbox + [AddObject(u, ORIGIN)])
      else w[c]
  {
    if k != 0 {
      IntroducedAmong(w, c, u, k - 1);
    }
  }

  predicate Meeting(other: Session, spawn: Pos) {
    other.status == InGame && GridDistance(spawn, other.at) <= SIGHT_RANGE
  }

  // What a login makes of the newcomer s and of the only other user there may be.
  function Newcomer(s: Session, c: Pid, spawn: Pos, other: Session, u: Pid): Session {
    var met := Meeting(other, spawn);
    Session(InGame, true, spawn, if met then s.view + {u} else s.view,
            s.outbox + [LoginOk(c, spawn)] + if met then [AddObject(u, ORIGIN)] else [])
  }

  function Host(s: Session, c: Pid, spawn: Pos, other: Session): Session {
    if Meeting(other, spawn)
    then other.(view := other.view + {c}, outbox := other.outbox + [AddObject(c, ORIGIN)])
    else other
  }

  lemma AnnounceAmong(w: World, c: Pid, spawn: Pos, u: Pid)
    requires IsUser(c) && IsUser(u) && c != u && w[c].at == spawn
    requires forall i: Pid :: IsUser(i) && i != u && i != c ==> w[i].status != InGame
    ensures
      var w' := Announce(w, c);
      && w'[u] == Host(w[c], c, spawn, w[u])
      && forall i: Pid :: i < ORDER_END_ALL && i != u ==> w'[i] == w[i]
  {
  }

  lemma LoginAmong(w: World, c: Pid, spawn: Pos, u: Pid)
    requires IsUser(c) && IsUser(u) && c != u && w[c].status == Accepted
    requires forall i: Pid :: IsUser(i) && i != u && i != c ==> w[i].status != InGame
    requires forall i: Pid :: IsNpc(i) ==> w[i].view == {}
    requires c !in w[u].view
    ensures
      var w' := Login(Keeps, w, c, spawn);
      && w'[c] == Newcomer(w[c], c, spawn, w[u], u) && w'[u] == Host(w[c], c, spawn, w[u])
      && forall i: Pid :: i < ORDER_END_ALL && i != c && i != u ==> w'[i] == w[i]
  {
    var w1: World := w[c := Entered(w[c], c, spawn)];
    AnnounceAmong(w1, c, spawn, u);
    IntroducedAmong(Announce(w1, c), c, u, ORDER_END_ALL);
  }

  lemma LoginFirst(a: Session, b: Session, spawn: Pos)
    requires a.status == Accepted && FIRST !in b.view
    ensures Login(Keeps, Table(a, b), FIRST, spawn)
         == Table(Newcomer(a, FIRST, spawn, b, SECOND), Host(a, FIRST, spawn, b))
  {
    LoginAmong(Table(a, b), FIRST, spawn, SECOND);
    SameTable(Login(Keeps, Table(a, b), FIRST, spawn),
              Newcomer(a, FIRST, spawn, b, SECOND), Host(a, FIRST, spawn, b));
  }

  lemma LoginSecond(a: Session, b: Session, spawn: Pos)
    requires b.status == Accepted && SECOND !in a.view
    ensures Login(Keeps, Table(a, b), SECOND, spawn)
         == Table(Host(b, SECOND, spawn, a), Newcomer(b, SECOND, spawn, a, FIRST))
  {
    LoginAmong(Table(a, b), SECOND, spawn, FIRST);
    SameTable(Login(Keeps, Table(a, b), SECOND, spawn),
              Host(b, SECOND, spawn, a), Newcomer(b, SECOND, spawn, a, FIRST));
  }

  lemma LeaveFirst(a: Session, b: Session)
    requires a.status != Free && b.status == InGame
    ensures Disconnect(Table(a, b), FIRST) == Table(a.(status := Free), Lost(b, FIRST))
  {
    SameTable(Disconnect(Table(a, b), FIRST), a.(status := Free), Lost(b, FIRST));
  }

  // NPC 0 stays where it is, in sight of the first user.
  lemma ZeroStays(a: Session)
    requires a.status == InGame && a.at == Pos(4, 4) && 0 !in a.view
    ensures Behave(Table(a, BLANK), 0, 0) == Table(a.(view := a.view + {0}), BLANK)
  {
    SameTable(Behave(Table(a, BLANK), 0, 0), a.(view := a.view + {0}), BLANK);
  }

  // The first user in game at `at`, where all the runs below begin.
  function Settled(at: Pos): Session {
    Session(InGame, true, at, {}, [LoginOk(FIRST, at)])
  }

  lemma FirstUserAt(at: Pos) returns (run: seq<Event>)
    requires InWorld(at)
    ensures Reaches(run, Table(Settled(at), BLANK))
  {
    SameTable(InitialWorld(), BLANK, BLANK);
    AcceptFirst(BLANK, BLANK);
    LoginFirst(Fresh(BLANK), BLANK, at);
    ReachesNext([], InitialWorld(), EvAccept, Table(Fresh(BLANK), BLANK));
    assert Newcomer(Fresh(BLANK), FIRST, at, BLANK, SECOND) == Settled(at);
    run := [EvAccept];
    assert [] + [EvAccept] == run;
    ReachesNext(run, Table(Fresh(BLANK), BLANK), EvLogin(FIRST, at), Table(Settled(at), BLANK));
    run := run + [EvLogin(FIRST, at)];
  }

  // A second user in game near the first.
  lemma SecondUserAt(at: Pos, spawn: Pos) returns (run: seq<Event>)
    requires InWorld(at) && InWorld(spawn) && GridDistance(spawn, at) <= SIGHT_RANGE
    ensures Reaches(run, Table(Settled(at).(view := {SECOND}, outbox := [LoginOk(FIRST, at), AddObject(SECOND, ORIGIN)]),
                               Session(InGame, true, spawn, {FIRST}, [LoginOk(SECOND, spawn), AddObject(FIRST, ORIGIN)])))
  {
    run := FirstUserAt(at);
    var a, b := Settled(at), Fresh(BLANK);
    AcceptSecond(a, BLANK);
    ReachesNext(run, Table(a, BLANK), EvAccept, Table(a, b));
    run := run + [EvAccept];
    LoginSecond(a, b, spawn);
    ReachesNext(run, Table(a, b), EvLogin(SECOND, spawn),
                Table(Host(b, SECOND, spawn, a), Newcomer(b, SECOND, spawn, a, FIRST)));
    run := run + [EvLogin(SECOND, spawn)];
    assert Host(b, SECOND, spawn, a) == a.(view := {SECOND}, outbox := [LoginOk(FIRST, at), AddObject(SECOND, ORIGIN)]);
    assert Newcomer(b, SECOND, spawn, a, FIRST)
        == Session(InGame, true, spawn, {FIRST}, [LoginOk(SECOND, spawn), AddObject(FIRST, ORIGIN)]);
  }

  // ------------------------------------------------- the runs

  /** A slot used again: its new user still lists a player of its previous life, who is
      out of range and does not list it. */
  lemma StaleSlotBreaksAgreement() returns (run: seq<Event>)
    ensures PossibleRun(Keeps, InitialWorld(), run)
    ensures
      var w := Run(Keeps, InitialWorld(), run);
      && w[FIRST].status == InGame && w[SECOND].status == InGame
      && SECOND in w[FIRST].view && FIRST !in w[SECOND].view && !Near(w[FIRST], w[SECOND])
  {
    run := SecondUserAt(Pos(0, 0), Pos(3, 0));
    var a := Settled(Pos(0, 0)).(view := {SECOND}, outbox := [LoginOk(FIRST, Pos(0, 0)), AddObject(SECOND, ORIGIN)]);
    var b := Session(InGame, true, Pos(3, 0), {FIRST}, [LoginOk(SECOND, Pos(3, 0)), AddObject(FIRST, ORIGIN)]);
    var a1, b1 := a.(status := Free), Lost(b, FIRST);
    LeaveFirst(a, b);
    ReachesNext(run, Table(a, b), EvDisconnect(FIRST), Table(a1, b1));
    run := run + [EvDisconnect(FIRST)];
    AcceptFirst(a1, b1);
    ReachesNext(run, Table(a1, b1), EvAccept, Table(Fresh(a1), b1));
    run := run + [EvAccept];
    LoginFirst(Fresh(a1), b1, Pos(100, 100));
    ReachesNext(run, Table(Fresh(a1), b1), EvLogin(FIRST, Pos(100, 100)),
                Table(Newcomer(Fresh(a1), FIRST, Pos(100, 100), b1, SECOND), Host(Fresh(a1), FIRST, Pos(100, 100), b1)));
    run := run + [EvLogin(FIRST, Pos(100, 100))];
  }

  /** An ADD shows the origin: the newcomer's client has its neighbour in the wrong place. */
  lemma AddShowsOrigin() returns (run: seq<Event>)
    ensures PossibleRun(Keeps, InitialWorld(), run)
    ensures
      var w := Run(Keeps, InitialWorld(), run);
      var r := Replay(SECOND, w[SECOND].outbox);
      && w[SECOND].status == InGame && FIRST in r.known && r.known[FIRST].at != w[FIRST].at
  {
    run := SecondUserAt(Pos(3, 0), Pos(0, 0));
    ReplayOne(SECOND, NOTHING, [LoginOk(SECOND, Pos(0, 0))], AddObject(FIRST, ORIGIN));
  }

  /** A connection that moves before it has logged in appears in a player's list. */
  lemma AcceptedMoverBreaksAgreement() returns (run: seq<Event>)
    ensures PossibleRun(Keeps, InitialWorld(), run)
    ensures
      var w := Run(Keeps, InitialWorld(), run);
      w[FIRST].status == InGame && w[SECOND].status == Accepted && SECOND in w[FIRST].view
  {
    run := FirstUserAt(Pos(4, 4));
    var a, b := Settled(Pos(4, 4)), Fresh(BLANK);
    AcceptSecond(a, BLANK);
    ReachesNext(run, Table(a, BLANK), EvAccept, Table(a, b));
    run := run + [EvAccept];
    assert Sight(Table(a, b), MovedBody(b, Still), SECOND) == {FIRST};
    var move := EvMove(SECOND, Still, [FIRST], []);
    ReachesNext(run, Table(a, b), move, Step(Keeps, Table(a, b), move));
    run := run + [move];
  }

  /** NPC 0 leaves a list: the client is told to remove what it was never shown. */
  lemma NpcZeroFault() returns (run: seq<Event>)
    ensures PossibleRun(Keeps, InitialWorld(), run)
    ensures 0 in Replay(FIRST, Run(Keeps, InitialWorld(), run)[FIRST].outbox).faults
  {
    run := FirstUserAt(Pos(4, 4));
    var a := Settled(Pos(4, 4));
    var a1 := a.(view := {0});
    ZeroStays(a);
    assert a.view + {0} == a1.view;
    ReachesNext(run, Table(a, BLANK), EvBehave(0, 0), Table(a1, BLANK));
    run := run + [EvBehave(0, 0)];
    assert Sight(Table(a1, BLANK), MovedBody(a1, Still), FIRST) == {};
    var move := EvMove(FIRST, Still, [], [0]);
    var w := Step(Keeps, Table(a1, BLANK), move);
    ReachesNext(run, Table(a1, BLANK), move, w);
    run := run + [move];
    ZeroUnshownIsAFault(w[FIRST].outbox);
  }

  lemma ZeroUnshownIsAFault(packets: seq<Packet>)
    requires packets == [LoginOk(FIRST, Pos(4, 4)), MoveObject(FIRST, Pos(4, 4)), RemoveObject(0)]
    ensures 0 in Replay(FIRST, packets).faults
  {
    ReplayOne(FIRST, NOTHING, [LoginOk(FIRST, Pos(4, 4))], MoveObject(FIRST, Pos(4, 4)));
    ReplayOne(FIRST, NOTHING, packets[..2], RemoveObject(0));
    assert packets[..2] == [LoginOk(FIRST, Pos(4, 4))] + [MoveObject(FIRST, Pos(4, 4))];
    assert packets == packets[..2] + [RemoveObject(0)];
  }
}
