/** Grid cells and headings. */
module Geometry {
  /** A cell of the board (Go's point struct); compared structurally and used as a map key. */
  datatype Point = Point(x: int, y: int)

  /** The snake's heading. The source keeps it as one of the strings "up", "down", "left",
      "right"; as an enumeration the `default:` arm of move's switch cannot be reached. */
  datatype Direction = Up | Down | Left | Right

  function Abs(n: int): nat
  {
    if n < 0 then -n else n
  }

  /** p and q are 4-neighbours: one unit apart along exactly one axis. */
  predicate Adjacent(p: Point, q: Point)
  {
    Abs(p.x - q.x) + Abs(p.y - q.y) == 1
  }

  /** The cell one step from p towards d; rows grow downwards, so up decreases y. */
  function Shift(p: Point, d: Direction): (r: Point)
    ensures Adjacent(p, r)
    ensures (d == Up || d == Down) <==> r.x == p.x
    ensures d == Up <==> r.y < p.y
    ensures d == Left <==> r.x < p.x
  {
    match d
    case Up => Point(p.x, p.y - 1)
    case Down => Point(p.x, p.y + 1)
    case Left => Point(p.x - 1, p.y)
    case Right => Point(p.x + 1, p.y)
  }

  /** The four headings reach exactly the four neighbours of p, each a different one. */
  lemma ShiftCoversNeighbours(p: Point, q: Point)
    ensures Adjacent(p, q) <==> exists d :: Shift(p, d) == q
    ensures forall d, e :: Shift(p, d) == Shift(p, e) ==> d == e
  {
    if Adjacent(p, q) {
      if q.x == p.x + 1 {
        assert Shift(p, Right) == q;
      } else if q.x == p.x - 1 {
        assert Shift(p, Left) == q;
      } else if q.y == p.y + 1 {
        assert Shift(p, Down) == q;
      } else {
        assert Shift(p, Up) == q;
      }
    }
  }
}
