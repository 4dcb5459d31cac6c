/** Steps and distances in coordinates: where a step leads, how far apart two places are, and
    that the distance is the number of steps between them. */
module SightSteps {
  import opened SightTypes
  import opened SightProtocol

  // One coordinate after a step of d along it, in a world of 2000 cells.
  function Along(c: int, d: int): int {
    if (d < 0 && c > 0) || (d > 0 && c < 1999) then c + d else c
  }

  function Shifted(p: Pos, d: (int, int)): Pos {
    Pos(Along(p.x, d.0), Along(p.y, d.1))
  }

  // Left is towards smaller x, up towards smaller y.
  function Heading(dir: Direction): (int, int) {
    match dir
    case Still => (0, 0)
    case Left => (-1, 0)
    case Right => (1, 0)
    case Up => (0, -1)
    case Down => (0, 1)
  }

  // What BehaveNPC makes of `rand() % 5`.
  function Rolled(roll: nat): (int, int)
    requires roll < 5
  {
    [(0, 0), (0, -1), (0, 1), (-1, 0), (1, 0)][roll]
  }

  /** A step of a mover or an NPC, in coordinates. */
  lemma StepGoes(p: Pos, dir: Direction, roll: nat)
    requires roll < 5
    ensures Stepped(p, dir) == Shifted(p, Heading(dir))
    ensures Stepped(p, RollDirection(roll)) == Shifted(p, Rolled(roll))
  {
  }

  // Inside the world a step leads to the next cell, or nowhere if there is none.
  lemma StepStaysInWorld(p: Pos, dir: Direction)
    requires InWorld(p)
    ensures
      var q := Pos(p.x + Heading(dir).0, p.y + Heading(dir).1);
      Stepped(p, dir) == if InWorld(q) then q else p
  {
    StepGoes(p, dir, 0);
  }

  // Both coordinate differences together are at most seven, whichever way they point.
  predicate WithinSeven(a: Pos, b: Pos) {
    var dx, dy := a.x - b.x, a.y - b.y;
    dx + dy <= 7 && dx - dy <= 7 && dy - dx <= 7 && -dx - dy <= 7
  }

  /** Being near, in coordinates. */
  lemma NearExactly(a: Session, b: Session)
    ensures Near(a, b) <==> WithinSeven(a.at, b.at)
  {
  }

  // ------------------------------------------------- distance as a number of steps

  function Walk(p: Pos, dirs: seq<Direction>): Pos
    decreases |dirs|
  {
    if dirs == [] then p else Walk(Stepped(p, dirs[0]), dirs[1..])
  }

  lemma {:induction false} WalkThere(a: Pos, b: Pos) returns (dirs: seq<Direction>)
    requires InWorld(a) && InWorld(b)
    ensures |dirs| == GridDistance(a, b) && Walk(a, dirs) == b
    decreases GridDistance(a, b)
  {
    if a == b {
      dirs := [];
    } else {
      var dir := if a.x < b.x then Right else if a.x > b.x then Left else if a.y < b.y then Down else Up;
      var rest := WalkThere(Stepped(a, dir), b);
      dirs := [dir] + rest;
      assert dirs[1..] == rest;
    }
  }

  lemma {:induction false} WalkNoShorter(a: Pos, dirs: seq<Direction>)
    ensures GridDistance(a, Walk(a, dirs)) <= |dirs|
    decreases |dirs|
  {
    if dirs != [] {
      WalkNoShorter(Stepped(a, dirs[0]), dirs[1..]);
    }
  }

  /** The distance of two places in the world is the number of steps an avatar needs to get
      from one to the other. */
  lemma DistanceIsShortestWalk(a: Pos, b: Pos)
    requires InWorld(a) && InWorld(b)
    ensures exists dirs: seq<Direction> :: |dirs| == GridDistance(a, b) && Walk(a, dirs) == b
    ensures forall dirs: seq<Direction> :: Walk(a, dirs) == b ==> |dirs| >= GridDistance(a, b)
  {
    var dirs := WalkThere(a, b);
    forall dirs: seq<Direction> | Walk(a, dirs) == b ensures |dirs| >= GridDistance(a, b) {
      WalkNoShorter(a, dirs);
    }
  }
}
