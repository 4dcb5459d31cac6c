/** Where a client has the objects it knows, and exactly when that is where they are. */
module SightPlaces {
  import opened SightTypes
  import opened SightProtocol
  import opened ClientReplica
  import opened SightInvariant
  import opened SightMoves
  import opened SightRuns
  import opened SightSteps

  // User v is in game and lists object o.
  predicate Lists(w: World, v: Pid, o: Pid)
    requires IsUser(v)
  {
    w[v].status == InGame && o in w[v].view
  }

  // v's client has object o where it really is.
  ghost predicate Placed(w: World, v: Pid, o: Pid)
    requires IsUser(v) && o < ORDER_END_ALL
  {
    var r := Replay(v, w[v].outbox);
    o in r.known && r.known[o].at == w[o].at
  }

  // A MOVE has shown o to a client that has been sent these packets, since its ADD.
  ghost predicate MoveShown(v: Pid, packets: seq<Packet>, o: Pid) {
    var r := Replay(v, packets);
    o in r.known && r.known[o].moved
  }

  // The events that show a listed object where it is: its own move or step, and v's move.
  predicate Refreshes(e: Event, v: Pid, o: Pid) {
    || (e.EvMove? && (e.m == o || e.m == v))
    || (e.EvBehave? && e.n == o)
  }

  lemma PlacedMeans(w: World, v: Pid, o: Pid)
    requires Inv(w) && IsUser(v) && Lists(w, v, o) && o != 0
    ensures o < ORDER_END_ALL && o != v
    ensures Placed(w, v, o) <==> MoveShown(v, w[v].outbox, o) || w[o].at == ORIGIN
  {
    assert Formed(w[v], v) && Consistent(w, v, w[v]);
  }

  // ------------------------------------------------- one packet more

  // v is told about object x: what has been shown of another object stays as it was, and x
  // itself counts as moved exactly if it was listed.
  lemma ToldShown(w: World, v: Pid, s: Session, s': Session, x: Pid, body: Session, o: Pid)
    requires Tracks(w, v, s) && x != v && o != 0 && o in s'.view
    requires s' == s || s' == Shown(s, x, body) || s' == Lost(s, x)
    requires o == x ==> s' == Shown(s, x, body)
    ensures MoveShown(v, s'.outbox, o) <==> o in s.view && (o == x || MoveShown(v, s.outbox, o))
  {
    if s'.outbox != s.outbox {
      var p := s'.outbox[|s.outbox|];
      assert s'.outbox == s.outbox + [p];
      ReplayOne(v, NOTHING, s.outbox, p);
    }
  }

  // What every event does to what has been shown: nothing counts as moved but what was
  // listed, and that if the event refreshes it or it had been shown by a MOVE before.
  ghost predicate ShownRight(w: World, w': World, e: Event, v: Pid, o: Pid)
    requires IsUser(v)
  {
    Lists(w', v, o) ==>
      (MoveShown(v, w'[v].outbox, o) <==>
         Lists(w, v, o) && (Refreshes(e, v, o) || MoveShown(v, w[v].outbox, o)))
  }

  lemma AcceptShows(w: World, v: Pid, o: Pid)
    requires IsUser(v) && o != 0
    ensures ShownRight(w, Accept(w), EvAccept, v, o)
  {
  }

  lemma DisconnectShows(w: World, who: Pid, e: Event, v: Pid, o: Pid)
    requires Inv(w) && who < ORDER_END_ALL && IsUser(v) && o != 0
    requires !Refreshes(e, v, o)
    ensures ShownRight(w, Disconnect(w, who), e, v, o)
  {
    var w' := Disconnect(w, who);
    if Lists(w', v, o) && w'[v] != w[v] {
      assert Consistent(w, v, w[v]);
      ToldShown(w, v, w[v], w'[v], who, w[who], o);
    }
  }

  lemma BehaveShows(w: World, n: Pid, roll: nat, v: Pid, o: Pid)
    requires Inv(w) && IsNpc(n) && roll < 5 && IsUser(v) && o != 0
    ensures ShownRight(w, Behave(w, n, roll), EvBehave(n, roll), v, o)
  {
    var w' := Behave(w, n, roll);
    if Lists(w', v, o) {
      assert Consistent(w, v, w[v]) && ViewAgrees(w, v);
      ToldShown(w, v, w[v], w'[v], n, w'[n], o);
    }
  }

  lemma OwnMoveShows(w: World, dir: Direction, enter: seq<Pid>, leave: seq<Pid>, v: Pid, o: Pid)
    requires Inv(w) && IsUser(v) && MoveOrders(w, v, dir, enter, leave) && o != 0
    ensures ShownRight(w, Move(w, v, dir, enter, leave), EvMove(v, dir, enter, leave), v, o)
  {
    var w' := Move(w, v, dir, enter, leave);
    if Lists(w', v, o) {
      var sight := Sight(w, MovedBody(w[v], dir), v);
      assert Formed(w[v], v) && Consistent(w, v, w[v]);
      assert forall x <- enter :: x in sight;
      MoverReplay(w, v, dir, enter, leave);
      assert o in sight && o in enter;
    }
  }

  // A mover listed by v, in game, that v does not see any more is lost to v.
  lemma UnseenMoverLost(w: World, m: Pid, dir: Direction, enter: seq<Pid>, leave: seq<Pid>, v: Pid)
    requires Inv(w) && IsUser(m) && IsUser(v) && m != v && MoveOrders(w, m, dir, enter, leave)
    requires w[v].status == InGame && v !in Sight(w, MovedBody(w[m], dir), m)
    ensures m !in Move(w, m, dir, enter, leave)[v].view
  {
    if m in w[v].view {
      assert ViewAgrees(w, v) && Formed(w[m], m);
      assert ViewAgrees(w, m) && Near(w[m], w[v]);
    }
  }

  lemma OtherMoveShows(w: World, m: Pid, dir: Direction, enter: seq<Pid>, leave: seq<Pid>, v: Pid, o: Pid)
    requires Inv(w) && IsUser(m) && IsUser(v) && m != v && MoveOrders(w, m, dir, enter, leave) && o != 0
    ensures ShownRight(w, Move(w, m, dir, enter, leave), EvMove(m, dir, enter, leave), v, o)
  {
    var w' := Move(w, m, dir, enter, leave);
    if Lists(w', v, o) {
      assert Consistent(w, v, w[v]) && Formed(w[m], m);
      if o == m && w[m].hasAvatar && v !in Sight(w, MovedBody(w[m], dir), m) {
        UnseenMoverLost(w, m, dir, enter, leave, v);
      }
      if w[m].hasAvatar {
        ToldShown(w, v, w[v], w'[v], m, w'[m], o);
      } else {
        assert ViewAgrees(w, v);
      }
    }
  }

  lemma LoginShows(rel: Release, w: World, c: Pid, spawn: Pos, v: Pid, o: Pid)
    requires Inv(w) && IsUser(c) && InWorld(spawn) && LoginHarmless(rel, w, c, spawn) && IsUser(v) && o != 0
    ensures ShownRight(w, Login(rel, w, c, spawn), EvLogin(c, spawn), v, o)
  {
    var w' := Login(rel, w, c, spawn);
    match w[c].status
    case Free =>
    case InGame =>
      if rel.Keeps? {
        assert w' == Disconnect(w, c);
        DisconnectShows(w, c, EvLogin(c, spawn), v, o);
      } else {
        StoredReloginIdle(w, c, spawn);
      }
    case Accepted =>
      LoggedInExactly(w, c, spawn);
      if Lists(w', v, o) {
        if v == c {
          assert w'[c] == LoggedIn(w, c, spawn)[c];
          NewcomerShown(w, c, spawn);
        } else {
          assert Consistent(w, v, w[v]) && ViewAgrees(w, v);
          assert w'[v] == Greeted(w[v], v, c, w[c].(at := spawn));
          ToldShown(w, v, w[v], w'[v], c, w[c].(at := spawn), o);
        }
      }
  }

  lemma StepShows(rel: Release, w: World, e: Event, v: Pid, o: Pid)
    requires Inv(w) && Possible(w, e) && Harmless(rel, w, e) && IsUser(v) && o != 0
    ensures ShownRight(w, Step(rel, w, e), e, v, o)
  {
    match e
    case EvAccept => AcceptShows(w, v, o);
    case EvLogin(c, spawn) => LoginShows(rel, w, c, spawn, v, o);
    case EvMove(m, dir, enter, leave) =>
      if m == v {
        OwnMoveShows(w, dir, enter, leave, v, o);
      } else {
        OtherMoveShows(w, m, dir, enter, leave, v, o);
      }
    case EvBehave(n, roll) => BehaveShows(w, n, roll, v, o);
    case EvDisconnect(who) => DisconnectShows(w, who, e, v, o);
  }

  // Where object o is going to stand after an event.
  function PlaceAfter(w: World, e: Event, o: Pid): Pos
    requires Possible(w, e) && o < ORDER_END_ALL
  {
    match e
    case EvAccept => if FirstFree(w, MAX_NPC) == Some(o) then Pos(4, 4) else w[o].at
    case EvLogin(c, spawn) => if c == o && w[o].status == Accepted then spawn else w[o].at
    case EvMove(m, dir, _, _) => if m == o && w[o].hasAvatar then Shifted(w[o].at, Heading(dir)) else w[o].at
    case EvBehave(n, roll) => if n == o then Shifted(w[o].at, Rolled(roll)) else w[o].at
    case EvDisconnect(_) => w[o].at
  }

  lemma LoginPlaces(rel: Release, w: World, c: Pid, spawn: Pos, o: Pid)
    requires IsUser(c) && o < ORDER_END_ALL
    ensures Login(rel, w, c, spawn)[o].at == if c == o && w[o].status == Accepted then spawn else w[o].at
  {
    if w[c].status == Accepted {
      IntroducedFields(Announce(w[c := Entered(w[c], c, spawn)], c), c, ORDER_END_ALL);
    }
  }

  lemma MovePlaces(w: World, m: Pid, dir: Direction, enter: seq<Pid>, leave: seq<Pid>, o: Pid)
    requires IsUser(m) && o < ORDER_END_ALL && MoveOrders(w, m, dir, enter, leave)
    ensures Move(w, m, dir, enter, leave)[o].at ==
            if m == o && w[o].hasAvatar then Shifted(w[o].at, Heading(dir)) else w[o].at
  {
    StepGoes(w[m].at, dir, 0);
  }

  lemma StepPlaces(rel: Release, w: World, e: Event, o: Pid)
    requires Possible(w, e) && o < ORDER_END_ALL
    ensures Step(rel, w, e)[o].at == PlaceAfter(w, e, o)
  {
    match e
    case EvLogin(c, spawn) => LoginPlaces(rel, w, c, spawn, o);
    case EvMove(m, dir, enter, leave) => MovePlaces(w, m, dir, enter, leave, o);
    case EvBehave(n, roll) => StepGoes(w[n].at, Still, roll);
    case _ =>
  }

  // A listed object stays where it is unless it takes a step itself.
  lemma ListedStays(w: World, e: Event, v: Pid, o: Pid)
    requires Inv(w) && Possible(w, e) && IsUser(v) && Lists(w, v, o) && o < ORDER_END_ALL
    requires !Refreshes(e, v, o)
    ensures PlaceAfter(w, e, o) == w[o].at
  {
    assert ViewAgrees(w, v) && Formed(w[o], o);
  }

  /** One harmless event after which user v, in game, lists object o. If v did not list it
      before, its client is shown the origin, and is right exactly if o is going to stand
      there. If it did, it is right after o's own move or step and after v's own move, and
      after any other event exactly if it was right before. */
  lemma PlacedStepExact(rel: Release, w: World, e: Event, v: Pid, o: Pid)
    requires Inv(w) && Possible(w, e) && Harmless(rel, w, e) && IsUser(v)
    requires o != 0 && o < ORDER_END_ALL && Lists(Step(rel, w, e), v, o)
    ensures
      Placed(Step(rel, w, e), v, o) <==>
        if !Lists(w, v, o) then PlaceAfter(w, e, o) == ORIGIN
        else Refreshes(e, v, o) || Placed(w, v, o)
  {
    StepExact(rel, w, e);
    StepShows(rel, w, e, v, o);
    StepPlaces(rel, w, e, o);
    PlacedMeans(Step(rel, w, e), v, o);
    if Lists(w, v, o) {
      PlacedMeans(w, v, o);
      if !Refreshes(e, v, o) {
        ListedStays(w, e, v, o);
      }
    }
  }

  // ------------------------------------------------- over runs

  // v has been in game and listed o from before event k to the end of the run.
  ghost predicate ListedSince(rel: Release, w: World, run: seq<Event>, k: nat, v: Pid, o: Pid)
    requires PossibleRun(rel, w, run) && IsUser(v)
  {
    forall j: nat :: k <= j <= |run| ==> Lists(Before(rel, w, run, j), v, o)
  }

  // Event k was a step of o or of v, taken while v listed o, as it has done since.
  ghost predicate RefreshedAt(rel: Release, w: World, run: seq<Event>, k: nat, v: Pid, o: Pid)
    requires PossibleRun(rel, w, run) && IsUser(v) && k < |run|
  {
    Refreshes(run[k], v, o) && ListedSince(rel, w, run, k, v, o)
  }

  ghost predicate Refreshed(rel: Release, w: World, run: seq<Event>, v: Pid, o: Pid)
    requires PossibleRun(rel, w, run) && IsUser(v)
  {
    exists k: nat :: k < |run| && RefreshedAt(rel, w, run, k, v, o)
  }

  lemma LaterListed(rel: Release, w: World, run: seq<Event>, k: nat, v: Pid, o: Pid)
    requires PossibleRun(rel, w, run) && IsUser(v) && k < |run|
    ensures ListedSince(rel, w, run, k + 1, v, o) <==> ListedSince(rel, Step(rel, w, run[0]), run[1..], k, v, o)
  {
    var w', rest := Step(rel, w, run[0]), run[1..];
    if ListedSince(rel, w, run, k + 1, v, o) {
      forall j: nat | k <= j <= |rest| ensures Lists(Before(rel, w', rest, j), v, o) {
        assert Before(rel, w, run, j + 1) == Before(rel, w', rest, j);
      }
    }
    if ListedSince(rel, w', rest, k, v, o) {
      forall j: nat | k + 1 <= j <= |run| ensures Lists(Before(rel, w, run, j), v, o) {
        assert Before(rel, w, run, j) == Before(rel, w', rest, j - 1);
      }
    }
  }

  lemma FirstListed(rel: Release, w: World, run: seq<Event>, v: Pid, o: Pid)
    requires PossibleRun(rel, w, run) && IsUser(v) && run != []
    ensures ListedSince(rel, w, run, 0, v, o) <==>
            Lists(w, v, o) && ListedSince(rel, Step(rel, w, run[0]), run[1..], 0, v, o)
  {
    LaterListed(rel, w, run, 0, v, o);
    assert Before(rel, w, run, 0) == w;
  }

  lemma FirstRefreshed(rel: Release, w: World, run: seq<Event>, v: Pid, o: Pid)
    requires PossibleRun(rel, w, run) && IsUser(v) && run != []
    ensures
      var w', rest := Step(rel, w, run[0]), run[1..];
      Refreshed(rel, w, run, v, o) <==>
        || (Refreshes(run[0], v, o) && Lists(w, v, o) && ListedSince(rel, w', rest, 0, v, o))
        || Refreshed(rel, w', rest, v, o)
  {
    var w', rest := Step(rel, w, run[0]), run[1..];
    FirstListed(rel, w, run, v, o);
    assert RefreshedAt(rel, w, run, 0, v, o) <==>
      Refreshes(run[0], v, o) && Lists(w, v, o) && ListedSince(rel, w', rest, 0, v, o);
    if k: nat :| k < |rest| && RefreshedAt(rel, w', rest, k, v, o) {
      LaterListed(rel, w, run, k, v, o);
      assert RefreshedAt(rel, w, run, k + 1, v, o);
    }
    if k: nat :| k < |run| && RefreshedAt(rel, w, run, k, v, o) {
      if k > 0 {
        LaterListed(rel, w, run, k - 1, v, o);
        assert RefreshedAt(rel, w', rest, k - 1, v, o);
      }
    }
  }

  lemma {:induction false} RunShows(rel: Release, w: World, run: seq<Event>, v: Pid, o: Pid)
    requires Inv(w) && PossibleRun(rel, w, run) && HarmlessThroughout(rel, w, run)
    requires IsUser(v) && o != 0 && Lists(Run(rel, w, run), v, o)
    ensures
      MoveShown(v, Run(rel, w, run)[v].outbox, o) <==>
        || Refreshed(rel, w, run, v, o)
        || (ListedSince(rel, w, run, 0, v, o) && MoveShown(v, w[v].outbox, o))
    decreases |run|
  {
    if run != [] {
      var w', rest := Step(rel, w, run[0]), run[1..];
      StepExact(rel, w, run[0]);
      StepShows(rel, w, run[0], v, o);
      RunShows(rel, w', rest, v, o);
      FirstListed(rel, w, run, v, o);
      FirstRefreshed(rel, w, run, v, o);
      assert ListedSince(rel, w', rest, 0, v, o) ==> Lists(w', v, o) by {
        assert Before(rel, w', rest, 0) == w';
      }
    }
  }

  /** Over every run of harmless events: an in-game user's client has an object it lists in
      the wrong place exactly when the object is off the origin and, since it last entered the
      list, neither it nor the user has taken a step. */
  lemma PlacedExactly(rel: Release, run: seq<Event>, v: Pid, o: Pid)
    requires PossibleRun(rel, InitialWorld(), run) && HarmlessThroughout(rel, InitialWorld(), run)
    requires IsUser(v) && o != 0 && o < ORDER_END_ALL && Lists(Run(rel, InitialWorld(), run), v, o)
    ensures
      var w := Run(rel, InitialWorld(), run);
      Placed(w, v, o) <==> w[o].at == ORIGIN || Refreshed(rel, InitialWorld(), run, v, o)
  {
    InitialInv();
    RunExact(rel, InitialWorld(), run);
    RunShows(rel, InitialWorld(), run, v, o);
    PlacedMeans(Run(rel, InitialWorld(), run), v, o);
    assert InitialWorld()[v].outbox == [];
  }

  /** Replica consistency: replaying what was sent to an in-game user yields its view list
      (without NPC 0) and its own position. An object has its true place there exactly when it
      stands at the origin or it or the user has taken a step since it entered the list; that
      is, exactly when it stands at the origin or the last packet about it was a MOVE. */
  lemma ReplicaConsistency(rel: Release, run: seq<Event>, v: Pid, o: Pid)
    requires PossibleRun(rel, InitialWorld(), run) && HarmlessThroughout(rel, InitialWorld(), run)
    requires var w := Run(rel, InitialWorld(), run); IsUser(v) && w[v].status == InGame
    requires o < ORDER_END_ALL
    ensures
      var w := Run(rel, InitialWorld(), run);
      var r := Replay(v, w[v].outbox);
      && r.me == Some(w[v].at)
      && (o != 0 ==> o !in r.faults && (o in r.known <==> o in w[v].view))
      && 0 !in r.known
      && (o in r.known ==>
            var last := LastAbout(w[v].outbox, o);
            && last.Some?
            && (r.known[o].at == w[o].at <==> last.value.MoveObject? || w[o].at == ORIGIN)
            && (r.known[o].at == w[o].at <==> w[o].at == ORIGIN || Refreshed(rel, InitialWorld(), run, v, o)))
  {
    InitialInv();
    RunExact(rel, InitialWorld(), run);
    var w := Run(rel, InitialWorld(), run);
    assert Consistent(w, v, w[v]) && Formed(w[v], v);
    if o in w[v].view && o != 0 {
      KnownFromLast(v, w[v].outbox, o);
      PlacedExactly(rel, run, v, o);
    }
  }
}
