/** What each handler does to the table of sessions, stated session by session. */
module SightProtocol {
  import opened SightTypes

  // The packet constructor that send_add_object picks takes the avatar's coordinates
  // and then initialises the packet's own to zero.
  function AddPacket(id: Pid, at: Pos): Packet {
    AddObject(id, ORIGIN)
  }

  // Identifier 0 is refused by the ADD and MOVE senders, not by the REMOVE sender.
  function SendAdd(s: Session, id: Pid, other: Session): Session {
    if id <= 0 then s else s.(outbox := s.outbox + [AddPacket(id, other.at)])
  }

  function SendMove(s: Session, id: Pid, other: Session): Session {
    if id <= 0 then s else s.(outbox := s.outbox + [MoveObject(id, other.at)])
  }

  function SendRemove(s: Session, id: Pid): Session {
    s.(outbox := s.outbox + [RemoveObject(id)])
  }

  // A session is shown object x: inserted and added, or moved if it is listed already.
  function Shown(s: Session, x: Pid, body: Session): Session {
    if x in s.view then SendMove(s, x, body) else SendAdd(s.(view := s.view + {x}), x, body)
  }

  // A session loses object x: erased and removed if it is listed.
  function Lost(s: Session, x: Pid): Session {
    if x in s.view then SendRemove(s.(view := s.view - {x}), x) else s
  }

  function Stepped(p: Pos, dir: Direction): Pos {
    match dir
    case Still => p
    case Left => if p.x > 0 then p.(x := p.x - 1) else p
    case Right => if p.x < W_WIDTH - 1 then p.(x := p.x + 1) else p
    case Up => if p.y > 0 then p.(y := p.y - 1) else p
    case Down => if p.y < W_HEIGHT - 1 then p.(y := p.y + 1) else p
  }

  // ------------------------------------------------------------------ accepting

  // The first free user slot at or after i.
  function FirstFree(w: World, i: nat): (slot: Option<Pid>)
    requires MAX_NPC <= i <= ORDER_END_ALL
    ensures slot.Some? ==>
      && i <= slot.value < ORDER_END_ALL
      && w[slot.value].status == Free
      && forall j :: i <= j < slot.value ==> w[j].status != Free
    ensures slot.None? ==> forall j :: i <= j < ORDER_END_ALL ==> w[j].status != Free
    decreases ORDER_END_ALL - i
  {
    if i == ORDER_END_ALL then None
    else if w[i].status == Free then Some(i)
    else FirstFree(w, i + 1)
  }

  // A new connection starts with an empty outbox; the slot's view list is not touched.
  function Accept(w: World): World {
    match FirstFree(w, MAX_NPC)
    case None => w
    case Some(c) => w[c := Session(Accepted, true, Pos(4, 4), w[c].view, [])]
  }

  // ------------------------------------------------------------------ disconnecting

  function Forgotten(s: Session, i: Pid, who: Pid): Session {
    if IsUser(i) && s.status == InGame then Lost(s, who) else s
  }

  function Disconnect(w: World, who: Pid): World
    requires who < ORDER_END_ALL
  {
    if !IsPlayer(who) || w[who].status == Free then
      w
    else
      seq(ORDER_END_ALL, i requires 0 <= i < ORDER_END_ALL =>
        if i == who then w[i].(status := Free) else Forgotten(w[i], i, who))
  }

  // ------------------------------------------------------------------ logging in

  /** What the release at the end of CS_LOGIN does with the status read at its beginning:
      `Stores` writes it back, which is what Session::ReleseStatus does; `Keeps` leaves the
      status the handler has set, which is what a release is for. */
  datatype Release = Stores | Keeps

  function Released(rel: Release, s: Session, older: Status): Session {
    if rel.Stores? then s.(status := older) else s
  }

  function Entered(s: Session, c: Pid, spawn: Pos): Session {
    s.(status := InGame, hasAvatar := true, at := spawn, outbox := s.outbox + [LoginOk(c, spawn)])
  }

  // Session i hears of the newcomer c.
  function Greeted(s: Session, i: Pid, c: Pid, newbie: Session): Session {
    if IsUser(i) && s.status == InGame && Near(newbie, s)
    then SendAdd(s.(view := s.view + {c}), c, newbie)
    else s
  }

  function Announce(w: World, c: Pid): World
    requires c < ORDER_END_ALL
  {
    seq(ORDER_END_ALL, i requires 0 <= i < ORDER_END_ALL =>
      if i == c then w[i] else Greeted(w[i], i, c, w[c]))
  }

  predicate Sees(w: World, i: Pid, c: Pid)
    requires i < ORDER_END_ALL
  {
    i != c && w[i].status == InGame && c in w[i].view
  }

  // The newcomer's own session once the sessions below k have been shown to it.
  function Introduced(w: World, c: Pid, k: nat): Session
    requires c < ORDER_END_ALL && k <= ORDER_END_ALL
  {
    if k == 0 then w[c]
    else
      var s := Introduced(w, c, k - 1);
      if Sees(w, k - 1, c) then SendAdd(s.(view := s.view + {k - 1}), k - 1, w[k - 1]) else s
  }

  function Login(rel: Release, w: World, c: Pid, spawn: Pos): World
    requires c < ORDER_END_ALL
  {
    match w[c].status
    case Free => w
    case InGame =>
      var w1 := Disconnect(w, c);
      w1[c := Released(rel, w1[c], InGame)]
    case Accepted =>
      var w1: World := w[c := Entered(w[c], c, spawn)];
      var w2 := Announce(w1, c);
      w2[c := Released(rel, Introduced(w2, c, ORDER_END_ALL), Accepted)]
  }

  // ------------------------------------------------------------------ moving

  // The other in-game users within range of `me`, which stands for session m.
  function Sight(w: World, me: Session, m: Pid): (ids: set<Pid>)
    ensures forall u :: u in ids ==> IsUser(u)
  {
    set u: Pid | MAX_NPC <= u < ORDER_END_ALL && u != m && w[u].status == InGame && Near(me, w[u])
  }

  // A visiting order of a set: hash sets are walked in an order nobody controls.
  predicate Orders(order: seq<Pid>, ids: set<Pid>) {
    && (forall o <- order :: o in ids)
    && (forall o <- ids :: o in order)
    && (forall i, j :: 0 <= i < j < |order| ==> order[i] != order[j])
  }

  ghost function AnyOrder(ids: set<Pid>): (order: seq<Pid>)
    ensures Orders(order, ids)
  {
    if ids == {} then []
    else
      var o :| o in ids;
      AnyOrder(ids - {o}) + [o]
  }

  lemma OrdersOneMore(order: seq<Pid>, ids: set<Pid>, o: Pid)
    requires Orders(order, ids) && o !in ids
    ensures Orders(order + [o], ids + {o})
  {
  }

  function EnterPacket(w: World, view: set<Pid>, o: Pid): Packet
    requires o < ORDER_END_ALL
  {
    if o in view then MoveObject(o, w[o].at) else AddPacket(o, w[o].at)
  }

  function EnterPackets(w: World, view: set<Pid>, order: seq<Pid>): seq<Packet>
    requires forall o :: o in order ==> o < ORDER_END_ALL
  {
    seq(|order|, k requires 0 <= k < |order| => assert order[k] in order; EnterPacket(w, view, order[k]))
  }

  function LeavePackets(order: seq<Pid>): seq<Packet> {
    seq(|order|, k requires 0 <= k < |order| => RemoveObject(order[k]))
  }

  function MovedBody(s: Session, dir: Direction): Session {
    s.(at := Stepped(s.at, dir))
  }

  // Session i after m, now at mover.at, has walked its new and its old sight.
  function Met(s: Session, i: Pid, m: Pid, mover: Session, sight: set<Pid>): Session {
    if i in sight then Shown(s, m, mover)
    else if i in mover.view && IsPlayer(i) then Lost(s, m)
    else s
  }

  predicate MoveOrders(w: World, m: Pid, dir: Direction, enter: seq<Pid>, leave: seq<Pid>)
    requires m < ORDER_END_ALL
  {
    var sight := Sight(w, MovedBody(w[m], dir), m);
    Orders(enter, sight) && Orders(leave, w[m].view - sight)
  }

  function Move(w: World, m: Pid, dir: Direction, enter: seq<Pid>, leave: seq<Pid>): World
    requires m < ORDER_END_ALL
    requires MoveOrders(w, m, dir, enter, leave)
  {
    if !w[m].hasAvatar then w
    else
      var mover := MovedBody(w[m], dir);
      var sight := Sight(w, mover, m);
      seq(ORDER_END_ALL, i requires 0 <= i < ORDER_END_ALL =>
        if i == m
        then mover.(view := sight,
                    outbox := mover.outbox + [MoveObject(m, mover.at)]
                              + EnterPackets(w, mover.view, enter) + LeavePackets(leave))
        else Met(w[i], i, m, mover, sight))
  }

  // ------------------------------------------------------------------ NPCs

  function RollDirection(roll: nat): Direction
    requires roll < 5
  {
    if roll == 0 then Still else if roll == 1 then Up else if roll == 2 then Down
    else if roll == 3 then Left else Right
  }

  // Session i after NPC n has gone from `before` to `after`.
  function Watched(s: Session, i: Pid, n: Pid, before: Session, after: Session): Session {
    if !IsUser(i) || s.status != InGame then s
    else if Near(after, s) then Shown(s, n, after)
    else if Near(before, s) then Lost(s, n)
    else s
  }

  function Behave(w: World, n: Pid, roll: nat): World
    requires IsNpc(n) && roll < 5
  {
    var after := MovedBody(w[n], RollDirection(roll));
    seq(ORDER_END_ALL, i requires 0 <= i < ORDER_END_ALL =>
      if i == n then after else Watched(w[i], i, n, w[n], after))
  }

  // ------------------------------------------------------------------ the whole machine

  datatype Event =
    | EvAccept
    | EvLogin(c: Pid, spawn: Pos)
    | EvMove(m: Pid, dir: Direction, enter: seq<Pid>, leave: seq<Pid>)
    | EvBehave(n: Pid, roll: nat)
    | EvDisconnect(who: Pid)

  // The arguments are ones the server can see: user and NPC identifiers in their
  // ranges, spawn points that `rand() % size` can give, real visiting orders.
  predicate Possible(w: World, e: Event) {
    match e
    case EvAccept => true
    case EvLogin(c, spawn) => IsUser(c) && InWorld(spawn)
    case EvMove(m, dir, enter, leave) => IsUser(m) && MoveOrders(w, m, dir, enter, leave)
    case EvBehave(n, roll) => IsNpc(n) && roll < 5
    case EvDisconnect(who) => who < ORDER_END_ALL
  }

  function Step(rel: Release, w: World, e: Event): World
    requires Possible(w, e)
  {
    match e
    case EvAccept => Accept(w)
    case EvLogin(c, spawn) => Login(rel, w, c, spawn)
    case EvMove(m, dir, enter, leave) => Move(w, m, dir, enter, leave)
    case EvBehave(n, roll) => Behave(w, n, roll)
    case EvDisconnect(who) => Disconnect(w, who)
  }

  // Every user slot free and never used, every NPC in game at (4, 4).
  function InitialWorld(): World {
    seq(ORDER_END_ALL, i requires 0 <= i < ORDER_END_ALL =>
      if IsNpc(i) then BLANK.(status := InGame, hasAvatar := true, at := Pos(4, 4)) else BLANK)
  }

  predicate PossibleRun(rel: Release, w: World, run: seq<Event>)
    decreases |run|
  {
    run == [] || (Possible(w, run[0]) && PossibleRun(rel, Step(rel, w, run[0]), run[1..]))
  }

  function Run(rel: Release, w: World, run: seq<Event>): World
    requires PossibleRun(rel, w, run)
    decreases |run|
  {
    if run == [] then w else Run(rel, Step(rel, w, run[0]), run[1..])
  }
}
