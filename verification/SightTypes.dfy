/** The vocabulary of the area-of-interest server: identifiers, sessions, packets and
    the whole table of sessions as a value. */
module SightTypes {

  const MAX_USER: nat := 10000
  const MAX_NPC: nat := 200000
  const ORDER_END_ALL: nat := MAX_NPC + MAX_USER
  const SIGHT_RANGE: int := 7
  const W_WIDTH: int := 2000
  const W_HEIGHT: int := 2000

  type Pid = nat

  // NPCs occupy the identifiers below MAX_NPC, users the ones from there on.
  predicate IsPlayer(id: Pid) {
    MAX_NPC <= id
  }

  predicate IsUser(id: Pid) {
    MAX_NPC <= id < ORDER_END_ALL
  }

  predicate IsNpc(id: Pid) {
    id < MAX_NPC
  }

  datatype Option<+T> = None | Some(value: T)

  datatype Status = Free | Accepted | InGame

  datatype Pos = Pos(x: int, y: int)

  const ORIGIN := Pos(0, 0)

  datatype Packet =
    | LoginOk(id: Pid, at: Pos)
    | AddObject(id: Pid, at: Pos)
    | MoveObject(id: Pid, at: Pos)
    | RemoveObject(id: Pid)

  // `at` means something only while `hasAvatar` holds; `outbox` is everything sent on
  // the current connection, oldest first.
  datatype Session = Session(status: Status, hasAvatar: bool, at: Pos, view: set<Pid>, outbox: seq<Packet>)

  const BLANK := Session(Free, false, ORIGIN, {}, [])

  type World = w: seq<Session> | |w| == ORDER_END_ALL
    witness seq(ORDER_END_ALL, (_: nat) => BLANK)

  datatype Direction = Still | Left | Right | Up | Down

  function Abs(x: int): int {
    if x < 0 then -x else x
  }

  // Manhattan distance between two avatars.
  function GridDistance(a: Pos, b: Pos): int {
    Abs(a.x - b.x) + Abs(a.y - b.y)
  }

  predicate Near(a: Session, b: Session) {
    GridDistance(a.at, b.at) <= SIGHT_RANGE
  }

  predicate InWorld(p: Pos) {
    0 <= p.x < W_WIDTH && 0 <= p.y < W_HEIGHT
  }
}
