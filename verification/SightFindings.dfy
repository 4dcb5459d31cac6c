/** Where the code does something other than it promises, and what then holds. */
module SightFindings {
  import opened SightTypes
  import opened SightProtocol
  import opened ClientReplica
  import opened SightInvariant
  import opened SightMoves
  import opened SightRuns

  // ------------------------------------------------- the older status is stored back

  // No user in game, nobody lists anybody, and no client was ever shown an object.
  ghost predicate Deserted(w: World) {
    && (forall v: Pid :: IsUser(v) ==> w[v].status != InGame && w[v].view == {})
    && (forall n: Pid :: IsNpc(n) ==> w[n].view == {})
    && (forall v: Pid :: IsUser(v) ==> forall p <- w[v].outbox :: !p.AddObject? && !p.RemoveObject?)
  }

  lemma {:induction false} DesertedIntroduced(w: World, c: Pid, k: nat)
    requires c < ORDER_END_ALL && k <= ORDER_END_ALL
    requires forall i: Pid :: i < ORDER_END_ALL && i != c ==> w[i].view == {}
    ensures Introduced(w, c, k) == w[c]
  {
    if k != 0 {
      DesertedIntroduced(w, c, k - 1);
    }
  }

  lemma DesertedLogin(w: World, c: Pid, spawn: Pos)
    requires Deserted(w) && IsUser(c)
    ensures Deserted(Login(Stores, w, c, spawn))
  {
    if w[c].status == Accepted {
      var w1: World := w[c := Entered(w[c], c, spawn)];
      var w2 := Announce(w1, c);
      assert forall i: Pid :: i < ORDER_END_ALL ==> w2[i] == w1[i];
      DesertedIntroduced(w2, c, ORDER_END_ALL);
    }
  }

  lemma FirstListed(order: seq<Pid>)
    requires order != []
    ensures order[0] in order
  {
  }

  lemma DesertedMove(w: World, m: Pid, dir: Direction, enter: seq<Pid>, leave: seq<Pid>)
    requires Deserted(w) && IsUser(m) && MoveOrders(w, m, dir, enter, leave)
    ensures Deserted(Move(w, m, dir, enter, leave))
  {
    var sight := Sight(w, MovedBody(w[m], dir), m);
    assert sight == {};
    assert forall o <- enter :: o in sight;
    assert forall o <- leave :: o in w[m].view;
    if enter != [] {
      FirstListed(enter);
    }
    if leave != [] {
      FirstListed(leave);
    }
    assert EnterPackets(w, w[m].view, enter) == [] && LeavePackets(leave) == [];
  }

  lemma DesertedStep(w: World, e: Event)
    requires Deserted(w) && Possible(w, e)
    ensures Deserted(Step(Stores, w, e))
  {
    match e
    case EvLogin(c, spawn) => DesertedLogin(w, c, spawn);
    case EvMove(m, dir, enter, leave) => DesertedMove(w, m, dir, enter, leave);
    case _ =>
  }

  lemma {:induction false} DesertedRun(w: World, run: seq<Event>)
    requires Deserted(w) && PossibleRun(Stores, w, run)
    ensures Deserted(Run(Stores, w, run))
    decreases |run|
  {
    if run != [] {
      DesertedStep(w, run[0]);
      DesertedRun(Step(Stores, w, run[0]), run[1..]);
    }
  }

  /** With the release that the session class implements, storing the status read at the
      start of the handler, no run of whole handlers ever leaves a user in game, puts an
      entry in a view list, or shows a client an object. */
  lemma StoredStatusEmptiesTheGame(run: seq<Event>, v: Pid)
    requires PossibleRun(Stores, InitialWorld(), run) && IsUser(v)
    ensures
      var s := Run(Stores, InitialWorld(), run)[v];
      s.status != InGame && s.view == {} && Replay(v, s.outbox).known == map[]
  {
    DesertedRun(InitialWorld(), run);
    NothingShown(v, Run(Stores, InitialWorld(), run)[v].outbox);
  }

  lemma {:induction false} NothingShown(self: Pid, packets: seq<Packet>)
    requires forall p <- packets :: !p.AddObject?
    ensures Replay(self, packets).known == map[]
    decreases |packets|
  {
    if packets != [] {
      NothingShown(self, packets[..|packets| - 1]);
    }
  }

  // ------------------------------------------------- NPC 0

  predicate ZeroUnshown(packets: seq<Packet>) {
    forall p <- packets :: !(p.AddObject? && p.id == 0) && !(p.MoveObject? && p.id == 0)
  }

  lemma MoveZeroUnshown(w: World, m: Pid, dir: Direction, enter: seq<Pid>, leave: seq<Pid>)
    requires IsUser(m) && MoveOrders(w, m, dir, enter, leave) && ZeroUnshown(w[m].outbox)
    ensures ZeroUnshown(Move(w, m, dir, enter, leave)[m].outbox)
  {
    var sight := Sight(w, MovedBody(w[m], dir), m);
    assert forall o <- enter :: o in sight;
    var packets := EnterPackets(w, w[m].view, enter);
    forall k | 0 <= k < |packets| ensures packets[k].id != 0 {
      assert enter[k] in enter;
    }
    assert forall p <- LeavePackets(leave) :: p.RemoveObject?;
  }

  lemma {:induction false} IntroducedZero(w: World, c: Pid, k: nat)
    requires c < ORDER_END_ALL && k <= ORDER_END_ALL && ZeroUnshown(w[c].outbox)
    ensures ZeroUnshown(Introduced(w, c, k).outbox)
  {
    if k != 0 {
      IntroducedZero(w, c, k - 1);
    }
  }

  lemma ZeroLogin(rel: Release, w: World, c: Pid, spawn: Pos, v: Pid)
    requires IsUser(c) && IsUser(v) && ZeroUnshown(w[v].outbox)
    ensures ZeroUnshown(Login(rel, w, c, spawn)[v].outbox)
  {
    if c == v && w[c].status == Accepted {
      IntroducedZero(Announce(w[c := Entered(w[c], c, spawn)], c), c, ORDER_END_ALL);
    }
  }

  lemma ZeroStep(rel: Release, w: World, e: Event, v: Pid)
    requires Possible(w, e) && IsUser(v) && ZeroUnshown(w[v].outbox)
    ensures ZeroUnshown(Step(rel, w, e)[v].outbox)
  {
    match e
    case EvLogin(c, spawn) =>
      ZeroLogin(rel, w, c, spawn, v);
    case EvMove(m, dir, enter, leave) =>
      if m == v {
        MoveZeroUnshown(w, m, dir, enter, leave);
      }
    case _ =>
  }

  lemma {:induction false} ZeroRun(rel: Release, w: World, run: seq<Event>, v: Pid)
    requires PossibleRun(rel, w, run) && IsUser(v) && ZeroUnshown(w[v].outbox)
    ensures ZeroUnshown(Run(rel, w, run)[v].outbox)
    decreases |run|
  {
    if run != [] {
      ZeroStep(rel, w, run[0], v);
      ZeroRun(rel, Step(rel, w, run[0]), run[1..], v);
    }
  }

  lemma {:induction false} ZeroFault(self: Pid, packets: seq<Packet>)
    requires ZeroUnshown(packets) && self != 0
    ensures 0 in Replay(self, packets).faults <==> RemoveObject(0) in packets
    ensures 0 !in Replay(self, packets).known
    decreases |packets|
  {
    if packets != [] {
      var front, last := packets[..|packets| - 1], packets[|packets| - 1];
      assert packets == front + [last];
      ZeroFault(self, front);
    }
  }

  // ------------------------------------------------- exactly when it is removed

  // A new connection takes slot v: its client starts with nothing.
  predicate Reconnects(w: World, e: Event, v: Pid) {
    e.EvAccept? && FirstFree(w, MAX_NPC) == Some(v)
  }

  /** The guard of a REMOVE for NPC 0, on the state before the event. Either user v itself
      moves while it lists NPC 0 (a move drops every NPC entry), or NPC 0 steps out of v's
      sight while v, in game, lists it. */
  predicate DropsZero(w: World, e: Event, v: Pid)
    requires Possible(w, e) && IsUser(v)
  {
    match e
    case EvMove(m, _, _, _) => m == v && w[v].hasAvatar && 0 in w[v].view
    case EvBehave(n, roll) =>
      && n == 0 && w[v].status == InGame && 0 in w[v].view
      && Near(w[0], w[v]) && !Near(MovedBody(w[0], RollDirection(roll)), w[v])
    case _ => false
  }

  // `sent` grew into `sent'`; what was added removes NPC 0 exactly if `drops`.
  ghost predicate Grew(sent: seq<Packet>, sent': seq<Packet>, drops: bool) {
    && |sent| <= |sent'| && sent'[..|sent|] == sent
    && (RemoveObject(0) in sent'[|sent|..] <==> drops)
  }

  lemma GrewBy(sent: seq<Packet>, more: seq<Packet>)
    ensures Grew(sent, sent + more, RemoveObject(0) in more)
  {
    assert (sent + more)[|sent|..] == more;
  }

  lemma LeaveRemoves(leave: seq<Pid>, o: Pid)
    ensures RemoveObject(o) in LeavePackets(leave) <==> o in leave
  {
    if o in leave {
      var k :| 0 <= k < |leave| && leave[k] == o;
      assert LeavePackets(leave)[k] == RemoveObject(o);
    }
  }

  lemma EnterRemovesNothing(w: World, view: set<Pid>, enter: seq<Pid>, o: Pid)
    requires forall x <- enter :: x < ORDER_END_ALL
    ensures RemoveObject(o) !in EnterPackets(w, view, enter)
  {
  }

  lemma MoveDropsZero(w: World, v: Pid, dir: Direction, enter: seq<Pid>, leave: seq<Pid>)
    requires IsUser(v) && MoveOrders(w, v, dir, enter, leave) && w[v].hasAvatar
    ensures Grew(w[v].outbox, Move(w, v, dir, enter, leave)[v].outbox, 0 in w[v].view)
  {
    var mover := MovedBody(w[v], dir);
    assert forall o <- enter :: o in Sight(w, mover, v);
    var own, shown, gone := [MoveObject(v, mover.at)], EnterPackets(w, w[v].view, enter), LeavePackets(leave);
    EnterRemovesNothing(w, w[v].view, enter, 0);
    LeaveRemoves(leave, 0);
    assert 0 in leave <==> 0 in w[v].view;
    GrewBy(w[v].outbox, own + shown + gone);
    assert w[v].outbox + own + shown + gone == w[v].outbox + (own + shown + gone);
  }

  lemma {:induction false} IntroducedDropsNothing(w: World, c: Pid, k: nat)
    requires c < ORDER_END_ALL && k <= ORDER_END_ALL
    ensures Grew(w[c].outbox, Introduced(w, c, k).outbox, false)
  {
    if k != 0 {
      IntroducedDropsNothing(w, c, k - 1);
    }
  }

  lemma LoginDropsNothing(rel: Release, w: World, c: Pid, spawn: Pos, v: Pid)
    requires IsUser(c) && IsUser(v)
    ensures Grew(w[v].outbox, Login(rel, w, c, spawn)[v].outbox, false)
  {
    if c == v && w[c].status == Accepted {
      IntroducedDropsNothing(Announce(w[c := Entered(w[c], c, spawn)], c), c, ORDER_END_ALL);
    }
  }

  lemma BehaveDropsZero(w: World, n: Pid, roll: nat, v: Pid)
    requires IsNpc(n) && roll < 5 && IsUser(v)
    ensures Grew(w[v].outbox, Behave(w, n, roll)[v].outbox, DropsZero(w, EvBehave(n, roll), v))
  {
  }

  lemma OthersMoveDropsNothing(w: World, m: Pid, dir: Direction, enter: seq<Pid>, leave: seq<Pid>, v: Pid)
    requires IsUser(m) && IsUser(v) && MoveOrders(w, m, dir, enter, leave)
    requires m != v || !w[v].hasAvatar
    ensures Grew(w[v].outbox, Move(w, m, dir, enter, leave)[v].outbox, false)
  {
  }

  lemma DisconnectDropsNothing(w: World, who: Pid, v: Pid)
    requires who < ORDER_END_ALL && IsUser(v)
    ensures Grew(w[v].outbox, Disconnect(w, who)[v].outbox, false)
  {
  }

  /** One event of any kind: unless it hands slot v to a new connection, v's client is sent
      a REMOVE for NPC 0 by it exactly when the guard held before it. */
  lemma NpcZeroStepExact(rel: Release, w: World, e: Event, v: Pid)
    requires Possible(w, e) && IsUser(v)
    ensures
      var sent := Step(rel, w, e)[v].outbox;
      if Reconnects(w, e, v) then sent == [] else Grew(w[v].outbox, sent, DropsZero(w, e, v))
  {
    match e
    case EvAccept =>
    case EvLogin(c, spawn) => LoginDropsNothing(rel, w, c, spawn, v);
    case EvMove(m, dir, enter, leave) =>
      if m == v && w[v].hasAvatar {
        MoveDropsZero(w, v, dir, enter, leave);
      } else {
        OthersMoveDropsNothing(w, m, dir, enter, leave, v);
      }
    case EvBehave(n, roll) => BehaveDropsZero(w, n, roll, v);
    case EvDisconnect(who) => DisconnectDropsNothing(w, who, v);
  }

  // No event from k on hands slot v to a new connection.
  ghost predicate StaysConnected(rel: Release, w: World, run: seq<Event>, k: nat, v: Pid)
    requires PossibleRun(rel, w, run)
  {
    forall j: nat :: k <= j < |run| ==> !Reconnects(Before(rel, w, run, j), run[j], v)
  }

  // Event k met the guard, and v's connection is still the one of that moment.
  ghost predicate DropsZeroAt(rel: Release, w: World, run: seq<Event>, k: nat, v: Pid)
    requires PossibleRun(rel, w, run) && IsUser(v) && k < |run|
  {
    DropsZero(Before(rel, w, run, k), run[k], v) && StaysConnected(rel, w, run, k, v)
  }

  ghost predicate DroppedZero(rel: Release, w: World, run: seq<Event>, v: Pid)
    requires PossibleRun(rel, w, run) && IsUser(v)
  {
    exists k: nat :: k < |run| && DropsZeroAt(rel, w, run, k, v)
  }

  // What the run as a whole says of its later events is what the rest of it says.
  lemma LaterConnected(rel: Release, w: World, run: seq<Event>, k: nat, v: Pid)
    requires PossibleRun(rel, w, run) && k < |run|
    ensures StaysConnected(rel, w, run, k + 1, v) <==> StaysConnected(rel, Step(rel, w, run[0]), run[1..], k, v)
  {
    var w', rest := Step(rel, w, run[0]), run[1..];
    if StaysConnected(rel, w, run, k + 1, v) {
      forall j: nat | k <= j < |rest| ensures !Reconnects(Before(rel, w', rest, j), rest[j], v) {
        assert Before(rel, w, run, j + 1) == Before(rel, w', rest, j);
      }
    }
    if StaysConnected(rel, w', rest, k, v) {
      forall j: nat | k + 1 <= j < |run| ensures !Reconnects(Before(rel, w, run, j), run[j], v) {
        assert Before(rel, w, run, j) == Before(rel, w', rest, j - 1);
      }
    }
  }

  lemma LaterDrop(rel: Release, w: World, run: seq<Event>, k: nat, v: Pid)
    requires PossibleRun(rel, w, run) && IsUser(v) && k + 1 < |run|
    ensures DropsZeroAt(rel, w, run, k + 1, v) <==> DropsZeroAt(rel, Step(rel, w, run[0]), run[1..], k, v)
  {
    LaterConnected(rel, w, run, k + 1, v);
    LaterConnected(rel, w, run, k, v);
    assert StaysConnected(rel, w, run, k + 1, v) <==>
      !Reconnects(Before(rel, w, run, k + 1), run[k + 1], v) && StaysConnected(rel, w, run, k + 2, v);
  }

  lemma FirstConnected(rel: Release, w: World, run: seq<Event>, v: Pid)
    requires PossibleRun(rel, w, run) && run != []
    ensures StaysConnected(rel, w, run, 0, v) <==>
            !Reconnects(w, run[0], v) && StaysConnected(rel, Step(rel, w, run[0]), run[1..], 0, v)
  {
    LaterConnected(rel, w, run, 0, v);
    assert Before(rel, w, run, 0) == w;
  }

  lemma FirstDrop(rel: Release, w: World, run: seq<Event>, v: Pid)
    requires PossibleRun(rel, w, run) && IsUser(v) && run != []
    ensures
      var w', rest := Step(rel, w, run[0]), run[1..];
      DroppedZero(rel, w, run, v) <==>
      (DropsZero(w, run[0], v) && StaysConnected(rel, w', rest, 0, v)) || DroppedZero(rel, w', rest, v)
  {
    var w', rest := Step(rel, w, run[0]), run[1..];
    FirstConnected(rel, w, run, v);
    assert DropsZeroAt(rel, w, run, 0, v) <==> DropsZero(w, run[0], v) && StaysConnected(rel, w', rest, 0, v);
    if k: nat :| k < |rest| && DropsZeroAt(rel, w', rest, k, v) {
      LaterDrop(rel, w, run, k, v);
    }
    if k: nat :| k < |run| && DropsZeroAt(rel, w, run, k, v) {
      if k > 0 {
        LaterDrop(rel, w, run, k - 1, v);
      }
    }
  }

  lemma {:induction false} DroppedZeroRun(rel: Release, w: World, run: seq<Event>, v: Pid)
    requires PossibleRun(rel, w, run) && IsUser(v)
    ensures
      RemoveObject(0) in Run(rel, w, run)[v].outbox <==>
      (RemoveObject(0) in w[v].outbox && StaysConnected(rel, w, run, 0, v)) || DroppedZero(rel, w, run, v)
    decreases |run|
  {
    if run != [] {
      var w' := Step(rel, w, run[0]);
      NpcZeroStepExact(rel, w, run[0], v);
      DroppedZeroRun(rel, w', run[1..], v);
      FirstConnected(rel, w, run, v);
      FirstDrop(rel, w, run, v);
      if !Reconnects(w, run[0], v) {
        var sent, sent' := w[v].outbox, w'[v].outbox;
        assert sent' == sent + sent'[|sent|..];
      }
    }
  }

  /** NPC 0 is never shown to any client, yet it is removed like any other. Over every run, a
      client has been told to remove it, unshown, exactly when some event on its current
      connection met the guard when it happened. */
  lemma NpcZeroExact(rel: Release, run: seq<Event>, v: Pid)
    requires PossibleRun(rel, InitialWorld(), run) && IsUser(v)
    ensures
      var r := Replay(v, Run(rel, InitialWorld(), run)[v].outbox);
      0 !in r.known && (0 in r.faults <==> DroppedZero(rel, InitialWorld(), run, v))
  {
    ZeroRun(rel, InitialWorld(), run, v);
    ZeroFault(v, Run(rel, InitialWorld(), run)[v].outbox);
    DroppedZeroRun(rel, InitialWorld(), run, v);
  }
}
