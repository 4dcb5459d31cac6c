/** The client's side: what a client that believes every packet ends up knowing. */
module ClientReplica {
  import opened SightTypes
  import opened SightProtocol

  // Where an object was last shown, and whether a MOVE has shown it since its ADD.
  datatype Sighting = Sighting(at: Pos, moved: bool)

  // `faults` collects the objects added twice, or moved or removed while unknown.
  datatype Replica = Replica(me: Option<Pos>, known: map<Pid, Sighting>, faults: set<Pid>)

  const NOTHING := Replica(None, map[], {})

  function Apply(self: Pid, r: Replica, p: Packet): Replica {
    match p
    case LoginOk(id, at) => r.(me := Some(at))
    case AddObject(id, at) =>
      r.(known := r.known[id := Sighting(at, false)],
         faults := if id in r.known then r.faults + {id} else r.faults)
    case MoveObject(id, at) =>
      if id == self then r.(me := Some(at))
      else if id in r.known then r.(known := r.known[id := Sighting(at, true)])
      else r.(faults := r.faults + {id})
    case RemoveObject(id) =>
      r.(known := r.known - {id},
         faults := if id in r.known then r.faults else r.faults + {id})
  }

  function ReplayFrom(self: Pid, r: Replica, packets: seq<Packet>): Replica
    decreases |packets|
  {
    if packets == [] then r
    else Apply(self, ReplayFrom(self, r, packets[..|packets| - 1]), packets[|packets| - 1])
  }

  function Replay(self: Pid, packets: seq<Packet>): Replica {
    ReplayFrom(self, NOTHING, packets)
  }

  lemma ReplayOne(self: Pid, r: Replica, packets: seq<Packet>, p: Packet)
    ensures ReplayFrom(self, r, packets + [p]) == Apply(self, ReplayFrom(self, r, packets), p)
  {
  }

  lemma {:induction false} ReplayConcat(self: Pid, r: Replica, a: seq<Packet>, b: seq<Packet>)
    ensures ReplayFrom(self, r, a + b) == ReplayFrom(self, ReplayFrom(self, r, a), b)
    decreases |b|
  {
    if b == [] {
      assert a + b == a;
    } else {
      var b' := b[..|b| - 1];
      ReplayConcat(self, r, a, b');
      assert a + b == (a + b') + [b[|b| - 1]];
      ReplayOne(self, r, a + b', b[|b| - 1]);
    }
  }

  // The last packet sent that shows or removes object o.
  function LastAbout(packets: seq<Packet>, o: Pid): Option<Packet>
    decreases |packets|
  {
    if packets == [] then None
    else
      var p := packets[|packets| - 1];
      if !p.LoginOk? && p.id == o then Some(p) else LastAbout(packets[..|packets| - 1], o)
  }

  // What a client knows of another object is what the last packet about it said, and the
  // flag tells which kind it was.
  lemma {:induction false} KnownFromLast(self: Pid, packets: seq<Packet>, o: Pid)
    requires o != self
    ensures
      var r := Replay(self, packets);
      o in r.known ==>
        var shown := r.known[o];
        LastAbout(packets, o) == Some(if shown.moved then MoveObject(o, shown.at) else AddObject(o, shown.at))
    decreases |packets|
  {
    if packets != [] {
      KnownFromLast(self, packets[..|packets| - 1], o);
    }
  }

  // ------------------------------------------------- what an exact replica is

  // An ADD shows the origin whatever the true position; a MOVE shows the truth.
  predicate ShownTruly(shown: Sighting, at: Pos) {
    shown.at == if shown.moved then at else ORIGIN
  }

  /** Replica r is right about session s: it knows exactly the view list (but for NPC 0,
      which is never shown), has been told nothing illegal about any other object, knows
      where its own avatar is, and has every object where the last packet put it. */
  ghost predicate Exact(w: World, s: Session, r: Replica) {
    && r.known.Keys == s.view - {0}
    && r.faults <= {0}
    && r.me == Some(s.at)
    && forall o :: o in r.known ==> o < ORDER_END_ALL && ShownTruly(r.known[o], w[o].at)
  }

  ghost predicate Tracks(w: World, v: Pid, s: Session) {
    Exact(w, s, Replay(v, s.outbox))
  }

  // Before it is in game a client has been shown no object at all.
  ghost predicate KnowsNothing(v: Pid, s: Session) {
    var r := Replay(v, s.outbox);
    r.known == map[] && r.faults <= {0}
  }

  ghost predicate Consistent(w: World, v: Pid, s: Session) {
    match s.status
    case InGame => Tracks(w, v, s)
    case Accepted => KnowsNothing(v, s)
    case Free => true
  }

  /** Session s, tracked while object x stood elsewhere, after it has been told about
      x's new state: shown or moved while x is in the view, removed when it is not. */
  ghost predicate ToldAbout(s: Session, s': Session, x: Pid, body: Session) {
    s' == Shown(s, x, body) || s' == Lost(s, x)
  }

  lemma TellKeepsExact(w: World, w': World, s: Session, s': Session, x: Pid, self: Pid, r: Replica, r': Replica)
    requires Exact(w, s, r)
    requires x != self && x < ORDER_END_ALL
    requires forall o: Pid :: o < ORDER_END_ALL && o != x ==> w'[o].at == w[o].at
    requires ToldAbout(s, s', x, w'[x])
    requires
      if s'.outbox == s.outbox then r' == r
      else r' == Apply(self, r, s'.outbox[|s'.outbox| - 1])
    ensures Exact(w', s', r')
  {
    if s'.outbox != s.outbox {
      var p := s'.outbox[|s.outbox|];
      assert s'.outbox == s.outbox + [p];
      assert r'.known.Keys == s'.view - {0};
    }
  }

  lemma TellKeepsTracking(w: World, w': World, v: Pid, s: Session, s': Session, x: Pid)
    requires Tracks(w, v, s)
    requires x != v && x < ORDER_END_ALL
    requires forall o: Pid :: o < ORDER_END_ALL && o != x ==> w'[o].at == w[o].at
    requires ToldAbout(s, s', x, w'[x])
    ensures Tracks(w', v, s')
  {
    if s'.outbox != s.outbox {
      var p := s'.outbox[|s.outbox|];
      assert s'.outbox == s.outbox + [p];
      ReplayOne(v, NOTHING, s.outbox, p);
    }
    TellKeepsExact(w, w', s, s', x, v, Replay(v, s.outbox), Replay(v, s'.outbox));
  }
}
