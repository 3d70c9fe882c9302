/** The static border around the playing field (newBorder and onBorder in main.go). */
module Board {
  import opened Geometry

  /** Width x, height y and the border cells. Go keeps the cells in a map[point]bool, where
      a missing key reads as false. The border is never changed after it is built. */
  datatype Border = Border(x: int, y: int, points: map<Point, bool>)

  /** p lies on the perimeter of an x-by-y rectangle whose top-left cell is (0, 0). */
  predicate OnPerimeter(p: Point, x: int, y: int)
  {
    || (0 <= p.x < x && (p.y == 0 || p.y == y - 1))
    || (0 <= p.y < y && (p.x == 0 || p.x == x - 1))
  }

  /** The shape NewBorder produces: the keys are exactly the perimeter, and all map to true. */
  ghost predicate WellFormed(b: Border)
  {
    && (forall p :: p in b.points <==> OnPerimeter(p, b.x, b.y))
    && (forall p :: p in b.points ==> b.points[p])
  }

  /** newBorder: the top side, the right side, the left side and the bottom side, in that order. */
  method NewBorder(x: int, y: int) returns (b: Border)
    ensures b.x == x && b.y == y
    ensures WellFormed(b)
  {
    var m: map<Point, bool> := map[];

    var i := 0;
    while i < x
      invariant 0 <= i && (i <= x || i == 0)
      invariant forall p :: p in m <==> p.y == 0 && 0 <= p.x < i
      invariant forall p :: p in m ==> m[p]
    {
      m := m[Point(i, 0) := true];
      i := i + 1;
    }

    i := 0;
    while i < y
      invariant 0 <= i && (i <= y || i == 0)
      invariant forall p :: p in m <==>
        (p.y == 0 && 0 <= p.x < x) || (p.x == x - 1 && 0 <= p.y < i)
      invariant forall p :: p in m ==> m[p]
    {
      m := m[Point(x - 1, i) := true];
      i := i + 1;
    }

    i := 0;
    while i < y
      invariant 0 <= i && (i <= y || i == 0)
      invariant forall p :: p in m <==>
        (p.y == 0 && 0 <= p.x < x) || (p.x == x - 1 && 0 <= p.y < y) || (p.x == 0 && 0 <= p.y < i)
      invariant forall p :: p in m ==> m[p]
    {
      m := m[Point(0, i) := true];
      i := i + 1;
    }

    i := 0;
    while i < x
      invariant 0 <= i && (i <= x || i == 0)
      invariant forall p :: p in m <==>
        (p.y == 0 && 0 <= p.x < x) || (p.x == x - 1 && 0 <= p.y < y) || (p.x == 0 && 0 <= p.y < y)
        || (p.y == y - 1 && 0 <= p.x < i)
      invariant forall p :: p in m ==> m[p]
    {
      m := m[Point(i, y - 1) := true];
      i := i + 1;
    }

    b := Border(x, y, m);
  }

  /** onBorder: the map lookup b.points[p], false for a cell that is not a key. */
  function OnBorder(p: Point, b: Border): (r: bool)
    ensures WellFormed(b) ==> (r <==> OnPerimeter(p, b.x, b.y))
  {
    p in b.points && b.points[p]
  }

  /** The cells (0, y) .. (n - 1, y). */
  function RowCells(y: int, n: nat): (s: set<Point>)
    ensures forall p :: p in s <==> p.y == y && 0 <= p.x < n
    ensures |s| == n
  {
    if n == 0 then {} else RowCells(y, n - 1) + {Point(n - 1, y)}
  }

  /** The cells (x, lo) .. (x, lo + n - 1). */
  function ColumnCells(x: int, lo: int, n: nat): (s: set<Point>)
    ensures forall p :: p in s <==> p.x == x && lo <= p.y < lo + n
    ensures |s| == n
  {
    if n == 0 then {} else ColumnCells(x, lo, n - 1) + {Point(x, lo + n - 1)}
  }

  /** A border of at least 2 by 2 cells has 2x + 2y - 4 cells: each corner is counted once. */
  lemma BorderCellCount(b: Border)
    requires WellFormed(b)
    requires b.x >= 2 && b.y >= 2
    ensures |b.points| == 2 * b.x + 2 * b.y - 4
  {
    var top, bottom := RowCells(0, b.x), RowCells(b.y - 1, b.x);
    var left, right := ColumnCells(0, 1, b.y - 2), ColumnCells(b.x - 1, 1, b.y - 2);
    var edges := top + bottom;
    var sides := left + right;
    assert |edges| == 2 * b.x by {
      assert top * bottom == {};
    }
    assert |sides| == 2 * b.y - 4 by {
      assert left * right == {};
    }
    assert |edges + sides| == 2 * b.x + 2 * b.y - 4 by {
      assert edges * sides == {};
    }
    assert b.points.Keys == edges + sides by {
      forall p ensures p in b.points.Keys <==> p in edges + sides {
        assert p in b.points <==> OnPerimeter(p, b.x, b.y);
      }
    }
  }
}
