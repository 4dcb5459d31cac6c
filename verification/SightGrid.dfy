/** The world server's sector grid: index arithmetic with its two axis swaps. */
module SightGrid {

  const WORLD_CELLS_CNT_H: int := 2000
  const WORLD_CELLS_CNT_V: int := 2000

  datatype Option<+T> = None | Some(value: T)

  datatype Sector = Sector(indexX: int, indexY: int)

  // A float to int conversion drops the fraction, towards zero.
  function Truncate(x: real): int {
    if x >= 0.0 then x.Floor else -(-x).Floor
  }

  function Clamp(x: int, low: int, high: int): int {
    if x < low then low else if high < x then high else x
  }

  function Ceiling(x: real): int {
    -((-x).Floor)
  }

  function CellOf(x: real, size: real, cells: int): int
    requires size > 0.0
  {
    Clamp(Truncate(x / size), 0, cells - 1)
  }

  // Where n cells of that size end.
  function Edge(n: int, size: real): real {
    n as real * size
  }

  // Cell k of that size reaches over x.
  predicate Within(k: int, x: real, size: real) {
    k as real * size <= x < (k + 1) as real * size
  }

  // Cell k of 2000 of that size reaches over x, the outer two without an end.
  predicate Reaches(k: int, x: real, size: real) {
    && 0 <= k < 2000
    && (k > 0 ==> k as real * size <= x)
    && (k < 1999 ==> x < (k + 1) as real * size)
  }

  class Manager {
    const sizeWorldH: real
    const sizeWorldV: real
    const sizeSectorH: real
    const sizeSectorV: real
    const countHrzSectors: nat
    const countVrtSectors: nat
    const sectors: seq<seq<Sector>>

    // Row i of the grid holds the sectors (0, i), (1, i), and so on.
    ghost predicate Valid() {
      && sizeWorldH >= 0.0 && sizeWorldV >= 0.0 && sizeSectorH > 0.0 && sizeSectorV > 0.0
      && countHrzSectors == Ceiling(sizeWorldH / sizeSectorH)
      && countVrtSectors == Ceiling(sizeWorldV / sizeSectorV)
      && |sectors| == countVrtSectors
      && forall i :: 0 <= i < |sectors| ==>
           |sectors[i]| == countHrzSectors && forall j :: 0 <= j < |sectors[i]| ==> sectors[i][j] == Sector(j, i)
    }

    constructor (w: real, h: real, sectorW: real, sectorH: real)
      requires w >= 0.0 && h >= 0.0 && sectorW > 0.0 && sectorH > 0.0
      ensures Valid()
      ensures sizeWorldH == w && sizeWorldV == h && sizeSectorH == sectorW && sizeSectorV == sectorH
      ensures countHrzSectors == Ceiling(w / sectorW) && countVrtSectors == Ceiling(h / sectorH)
    {
      QuotientNonNegative(w, sectorW);
      QuotientNonNegative(h, sectorH);
      sizeWorldH, sizeWorldV := w, h;
      sizeSectorH, sizeSectorV := sectorW, sectorH;
      var countH, countV := Ceiling(w / sectorW), Ceiling(h / sectorH);
      countHrzSectors, countVrtSectors := countH, countV;
      var built := BuildSectors(countH, countV);
      sectors := built;
    }

    static method BuildSectors(countH: nat, countV: nat) returns (result: seq<seq<Sector>>)
      ensures |result| == countV
      ensures forall i :: 0 <= i < countV ==>
        |result[i]| == countH && forall j :: 0 <= j < countH ==> result[i][j] == Sector(j, i)
    {
      result := [];
      for i := 0 to countV
        invariant |result| == i
        invariant forall k :: 0 <= k < i ==>
          |result[k]| == countH && forall j :: 0 <= j < countH ==> result[k][j] == Sector(j, k)
      {
        var pusher: seq<Sector> := [];
        for j := 0 to countH
          invariant |pusher| == j && forall k :: 0 <= k < j ==> pusher[k] == Sector(k, i)
        {
          pusher := pusher + [Sector(j, i)];
        }
        result := result + [pusher];
      }
    }

    // The pair comes back with the axes exchanged.
    function PickCoords(x: real, y: real): (int, int)
      requires Valid()
    {
      (CellOf(y, sizeSectorV, WORLD_CELLS_CNT_V), CellOf(x, sizeSectorH, WORLD_CELLS_CNT_H))
    }

    function PickPositionFirst(x: int, y: int): (real, real) {
      (y as real * sizeSectorV, x as real * sizeSectorH)
    }

    function PickPositionLast(x: int, y: int): (real, real) {
      ((y + 1) as real * sizeSectorV, (x + 1) as real * sizeSectorH)
    }

    // vector::at on the row and then the column; None where it throws.
    function At(x: int, y: int): Option<Sector> {
      if 0 <= y < |sectors| && 0 <= x < |sectors[y]| then Some(sectors[y][x]) else None
    }

    function AtByPosition(x: real, y: real): Option<Sector>
      requires Valid()
    {
      var c := PickCoords(x, y);
      At(c.0, c.1)
    }

    // The half-open box between the first and the last position of a pair of coordinates.
    predicate InBox(c: (int, int), x: real, y: real) {
      var first, last := PickPositionFirst(c.0, c.1), PickPositionLast(c.0, c.1);
      first.0 <= x < last.0 && first.1 <= y < last.1
    }

    // As long as the fixed number of cells reaches.
    predicate OnMap(x: real, y: real) {
      && 0.0 <= x < WORLD_CELLS_CNT_H as real * sizeSectorH
      && 0.0 <= y < WORLD_CELLS_CNT_V as real * sizeSectorV
    }

    /** With square sectors the axis swaps cancel: a point on the map lies in the box of the
        coordinates picked for it, and in no other box. */
    lemma PointLiesInItsBox(x: real, y: real, c: (int, int))
      requires Valid() && sizeSectorH == sizeSectorV && OnMap(x, y)
      ensures InBox(c, x, y) <==> c == PickCoords(x, y)
    {
      BoxWithin(c, x, y);
      CellExact(x, sizeSectorV, WORLD_CELLS_CNT_H, c.1);
      CellExact(y, sizeSectorH, WORLD_CELLS_CNT_V, c.0);
    }

    predicate InPickedBox(x: real, y: real)
      requires Valid()
    {
      InBox(PickCoords(x, y), x, y)
    }

    /** Every point on the map lies in the box of its picked coordinates exactly when sectors
        are square. */
    lemma BoxesExact()
      requires Valid()
      ensures (forall x: real, y: real :: OnMap(x, y) ==> InPickedBox(x, y)) <==> sizeSectorH == sizeSectorV
    {
      if sizeSectorH == sizeSectorV {
        forall x: real, y: real | OnMap(x, y) ensures InPickedBox(x, y) {
          PointLiesInItsBox(x, y, PickCoords(x, y));
        }
      } else if sizeSectorH < sizeSectorV {
        SecondColumnOutside();
      } else {
        SecondRowOutside();
      }
    }

    // Where the second column of the map begins, short of the second box of the larger size.
    lemma SecondColumnOutside()
      requires Valid() && sizeSectorH < sizeSectorV
      ensures OnMap(sizeSectorH, 0.0) && !InPickedBox(sizeSectorH, 0.0)
    {
      CellOfMultiple(1, sizeSectorH, sizeSectorH, sizeSectorH, WORLD_CELLS_CNT_H);
      BoxWithin(PickCoords(sizeSectorH, 0.0), sizeSectorH, 0.0);
    }

    lemma SecondRowOutside()
      requires Valid() && sizeSectorV < sizeSectorH
      ensures OnMap(0.0, sizeSectorV) && !InPickedBox(0.0, sizeSectorV)
    {
      CellOfMultiple(1, sizeSectorV, sizeSectorV, sizeSectorV, WORLD_CELLS_CNT_V);
      BoxWithin(PickCoords(0.0, sizeSectorV), 0.0, sizeSectorV);
    }

    // The axes of a box: the second coordinate measures x, the first one y.
    lemma BoxWithin(c: (int, int), x: real, y: real)
      ensures InBox(c, x, y) <==> Within(c.1, x, sizeSectorV) && Within(c.0, y, sizeSectorH)
    {
    }

    // The first position of a sector, picked again.
    predicate ComesBack(cx: int, cy: int)
      requires Valid()
    {
      var p := PickPositionFirst(cx, cy);
      PickCoords(p.0, p.1) == (cx, cy)
    }

    predicate OnGrid(cx: int, cy: int) {
      0 <= cx < WORLD_CELLS_CNT_V && 0 <= cy < WORLD_CELLS_CNT_H
    }

    /** The round trip from coordinates to first position and back is the identity on the
        whole map exactly when sectors are square. */
    lemma RoundTripExact()
      requires Valid()
      ensures (forall cx, cy :: OnGrid(cx, cy) ==> ComesBack(cx, cy)) <==> sizeSectorH == sizeSectorV
    {
      if sizeSectorH == sizeSectorV {
        forall cx, cy | OnGrid(cx, cy) ensures ComesBack(cx, cy) {
          SquareComesBack(cx, cy);
        }
      } else {
        OblongDoesNot();
      }
    }

    lemma SquareComesBack(cx: int, cy: int)
      requires Valid() && sizeSectorH == sizeSectorV && OnGrid(cx, cy)
      ensures ComesBack(cx, cy)
    {
      var p := PickPositionFirst(cx, cy);
      CellOfMultiple(cx, p.1, sizeSectorH, sizeSectorV, WORLD_CELLS_CNT_V);
      CellOfMultiple(cy, p.0, sizeSectorV, sizeSectorH, WORLD_CELLS_CNT_H);
    }

    // The last column or the last row of the map does not come back.
    lemma OblongDoesNot()
      requires Valid() && sizeSectorH != sizeSectorV
      ensures !(ComesBack(1999, 0) && ComesBack(0, 1999))
      ensures OnGrid(1999, 0) && OnGrid(0, 1999)
    {
      if sizeSectorH < sizeSectorV {
        CellOfShrunk(1999, sizeSectorH, sizeSectorV);
      } else {
        CellOfShrunk(1999, sizeSectorV, sizeSectorH);
      }
    }

    /** Which sector a position gives, or that it throws. The picked column indexes rows and
        the picked row columns, and the clamp knows the map's cell count, not the number of
        sectors built: the lookup throws exactly when an index reaches past what was built. */
    lemma LookupExact(x: real, y: real)
      requires Valid()
      ensures
        var ix := CellOf(x, sizeSectorH, WORLD_CELLS_CNT_H);
        var iy := CellOf(y, sizeSectorV, WORLD_CELLS_CNT_V);
        AtByPosition(x, y) == if ix < countVrtSectors && iy < countHrzSectors then Some(Sector(iy, ix)) else None
    {
    }

    /** The same without naming the cells: a position gives the sector in row ix and column iy
        exactly when ix is the cell of x and iy the cell of y, the first and the last one of
        2000 reaching on for ever, and both were built. */
    lemma LookupInPlaces(x: real, y: real, ix: int, iy: int)
      requires Valid()
      ensures
        AtByPosition(x, y) == Some(Sector(iy, ix)) <==>
        && 0 <= ix < countVrtSectors && 0 <= iy < countHrzSectors
        && Reaches(ix, x, sizeSectorH) && Reaches(iy, y, sizeSectorV)
    {
      LookupExact(x, y);
      CellReaches(x, sizeSectorH, ix);
      CellReaches(y, sizeSectorV, iy);
    }

    /** In a square world of square sectors the lookup answers exactly for the positions
        short of the far edges of the last sectors, and for every position once there are as
        many sectors as the map has cells. */
    lemma LookupTotal(x: real, y: real)
      requires Valid() && sizeSectorH == sizeSectorV && 0 < countHrzSectors == countVrtSectors
      ensures
        var edge := Edge(countHrzSectors, sizeSectorH);
        AtByPosition(x, y).Some? <==> countHrzSectors >= WORLD_CELLS_CNT_H || (x < edge && y < edge)
    {
      LookupExact(x, y);
      CellBelow(x, sizeSectorH, WORLD_CELLS_CNT_H, countHrzSectors);
      CellBelow(y, sizeSectorV, WORLD_CELLS_CNT_V, countHrzSectors);
    }

    predicate InTheWorld(x: real, y: real) {
      0.0 <= x < sizeWorldH && 0.0 <= y < sizeWorldV
    }

    // Every point of the world has a sector.
    ghost predicate CoversTheWorld()
      requires Valid()
    {
      forall x: real, y: real :: InTheWorld(x, y) ==> AtByPosition(x, y).Some?
    }

    /** The lookup answers for every point of a world that is not empty exactly when there
        are as many columns as rows, or as many of both as the map has cells: rows are picked
        by the column a point is in, and columns by its row. */
    lemma WorldCoveredExactly()
      requires Valid() && sizeWorldH > 0.0 && sizeWorldV > 0.0
      ensures CoversTheWorld() <==>
        || countHrzSectors == countVrtSectors
        || (countHrzSectors >= WORLD_CELLS_CNT_H && countVrtSectors >= WORLD_CELLS_CNT_V)
    {
      LastCell(sizeWorldH, sizeSectorH);
      LastCell(sizeWorldV, sizeSectorV);
      var h, v := countHrzSectors, countVrtSectors;
      if h == v || (h >= WORLD_CELLS_CNT_H && v >= WORLD_CELLS_CNT_V) {
        forall x: real, y: real | InTheWorld(x, y) ensures AtByPosition(x, y).Some? {
          CellInside(x, sizeWorldH, sizeSectorH, WORLD_CELLS_CNT_H);
          CellInside(y, sizeWorldV, sizeSectorV, WORLD_CELLS_CNT_V);
          LookupExact(x, y);
        }
      } else if v < h && v < WORLD_CELLS_CNT_H {
        RowMissing();
      } else {
        ColumnMissing();
      }
    }

    // More columns than rows: the first column without a row of that number is not found.
    lemma RowMissing()
      requires Valid() && sizeWorldH > 0.0 && sizeWorldV > 0.0
      requires countVrtSectors < countHrzSectors && countVrtSectors < WORLD_CELLS_CNT_H
      ensures !CoversTheWorld()
    {
      var x := Start(countVrtSectors, sizeWorldH, sizeSectorH, WORLD_CELLS_CNT_H);
      LookupExact(x, 0.0);
      assert InTheWorld(x, 0.0) && AtByPosition(x, 0.0).None?;
    }

    lemma ColumnMissing()
      requires Valid() && sizeWorldH > 0.0 && sizeWorldV > 0.0
      requires countHrzSectors < countVrtSectors && countHrzSectors < WORLD_CELLS_CNT_V
      ensures !CoversTheWorld()
    {
      var y := Start(countHrzSectors, sizeWorldV, sizeSectorV, WORLD_CELLS_CNT_V);
      LookupExact(0.0, y);
      assert InTheWorld(0.0, y) && AtByPosition(0.0, y).None?;
    }

    /** Two points on the map for which the lookup answers share a sector exactly when they
        share a box. */
    lemma SameSectorSameBox(x1: real, y1: real, x2: real, y2: real)
      requires Valid() && sizeSectorH == sizeSectorV && OnMap(x1, y1) && OnMap(x2, y2)
      requires AtByPosition(x1, y1).Some? && AtByPosition(x2, y2).Some?
      ensures AtByPosition(x1, y1) == AtByPosition(x2, y2) <==> exists c :: InBox(c, x1, y1) && InBox(c, x2, y2)
    {
      var c1, c2 := PickCoords(x1, y1), PickCoords(x2, y2);
      PointLiesInItsBox(x1, y1, c1);
      PointLiesInItsBox(x2, y2, c1);
      PointLiesInItsBox(x2, y2, c2);
      if c: (int, int) :| InBox(c, x1, y1) && InBox(c, x2, y2) {
        PointLiesInItsBox(x1, y1, c);
        PointLiesInItsBox(x2, y2, c);
      }
    }
  }

  // ------------------------------------------------------------------ arithmetic

  lemma MulMonotone(a: real, b: real, s: real)
    requires s > 0.0
    ensures a < b <==> a * s < b * s
    ensures a <= b <==> a * s <= b * s
  {
  }

  lemma QuotientNonNegative(x: real, s: real)
    requires s > 0.0 && x >= 0.0
    ensures x / s >= 0.0 && Ceiling(x / s) >= 0
  {
  }

  // Whole multiples of the size bound a quotient as they bound the number itself.
  lemma QuotientBound(x: real, s: real, k: int)
    requires s > 0.0
    ensures x / s < k as real <==> x < k as real * s
    ensures k as real <= x / s <==> k as real * s <= x
  {
  }

  lemma CellBounds(x: real, s: real, cells: int)
    requires s > 0.0 && cells > 0 && 0.0 <= x < cells as real * s
    ensures var k := CellOf(x, s, cells); k as real * s <= x < (k + 1) as real * s
  {
    QuotientBound(x, s, 0);
    QuotientBound(x, s, cells);
    var k := (x / s).Floor;
    QuotientBound(x, s, k);
    QuotientBound(x, s, k + 1);
    assert CellOf(x, s, cells) == k;
  }

  lemma CellUnique(x: real, s: real, j: int, k: int)
    requires s > 0.0
    requires j as real * s <= x < (j + 1) as real * s
    requires k as real * s <= x < (k + 1) as real * s
    ensures j == k
  {
    QuotientBound(x, s, j);
    QuotientBound(x, s, j + 1);
    QuotientBound(x, s, k);
    QuotientBound(x, s, k + 1);
  }

  lemma CellExact(x: real, s: real, cells: int, k: int)
    requires s > 0.0 && cells > 0 && 0.0 <= x < cells as real * s
    ensures k == CellOf(x, s, cells) <==> Within(k, x, s)
  {
    CellBounds(x, s, cells);
    if Within(k, x, s) {
      CellUnique(x, s, k, CellOf(x, s, cells));
    }
  }

  lemma CellOfMultiple(k: int, x: real, s: real, t: real, cells: int)
    requires s == t > 0.0 && 0 <= k < cells && x == k as real * s
    ensures CellOf(x, t, cells) == k
  {
    QuotientBound(x, t, k);
    MulMonotone(k as real, (k + 1) as real, t);
    QuotientBound(x, t, k + 1);
    assert (x / t).Floor == k;
  }

  // Shrinking k cells of size `large` to size `small` loses at least one of them.
  lemma CellOfShrunk(k: int, small: real, large: real)
    requires 0.0 < small < large && 0 < k < 2000
    ensures CellOf(k as real * small, large, 2000) < k
  {
    var x := k as real * small;
    MulMonotone(0.0, k as real, small);
    assert k as real * small < k as real * large by {
      MulMonotone(small, large, k as real);
    }
    QuotientBound(x, large, 0);
    QuotientBound(x, large, k);
  }

  lemma LastCell(w: real, s: real)
    requires s > 0.0 && w > 0.0
    ensures Ceiling(w / s) > 0
  {
    QuotientBound(w, s, 0);
  }

  // A point short of the world's size is in one of the cells the world is divided into.
  lemma CellInside(x: real, w: real, s: real, cells: int)
    requires s > 0.0 && cells > 0 && 0.0 <= x < w
    ensures 0 <= CellOf(x, s, cells) < Ceiling(w / s) && CellOf(x, s, cells) < cells
  {
    QuotientBound(x, s, 0);
    QuotientBound(x, s, Ceiling(w / s));
    QuotientBound(w, s, Ceiling(w / s));
    CeilingBound(w / s);
    MulMonotone(w / s, Ceiling(w / s) as real, s);
  }

  // ... and each of those cells begins with a point of the world.
  lemma Start(k: nat, w: real, s: real, cells: int) returns (x: real)
    requires s > 0.0 && k < cells && k < Ceiling(w / s)
    ensures 0.0 <= x < w && CellOf(x, s, cells) == k
  {
    x := k as real * s;
    CeilingBound(w / s);
    assert k as real < w / s;
    QuotientAbove(w, s, k);
    MulMonotone(0.0, k as real, s);
    CellOfMultiple(k, x, s, s, cells);
  }

  lemma QuotientAbove(x: real, s: real, k: int)
    requires s > 0.0
    ensures (k as real) < x / s <==> k as real * s < x
  {
  }

  lemma CeilingBound(q: real)
    ensures (Ceiling(q) - 1) as real < q <= Ceiling(q) as real
  {
  }

  lemma CellReaches(x: real, s: real, k: int)
    requires s > 0.0
    ensures k == CellOf(x, s, 2000) <==> Reaches(k, x, s)
  {
    QuotientBound(x, s, 0);
    QuotientBound(x, s, k);
    QuotientBound(x, s, k + 1);
    QuotientBound(x, s, 2000);
  }

  // A clamped cell is below a bound within the clamp exactly when the point is.
  lemma CellBelow(x: real, s: real, cells: int, bound: int)
    requires s > 0.0 && 0 < bound && 0 < cells
    ensures CellOf(x, s, cells) < bound <==> bound >= cells || x < Edge(bound, s)
  {
    QuotientBound(x, s, bound);
    QuotientBound(x, s, 0);
  }
}
