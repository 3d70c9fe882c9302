/** The bytes of one frame: the row loop of the render loop (main.go:146-168). */
module Screen {
  import opened Geometry
  import opened Board
  import opened Glyphs
  import opened Feeding
  import opened Movement

  /** The byte the row loop leaves at column x of row y. Each later write overrides an earlier
      one, so the food wins over the snake, the snake over the border, the border over space. */
  function Cell(b: Border, body: seq<Point>, food: Point, kind: int, x: int, y: int): byte
  {
    var p := Point(x, y);
    if p == food then ToByte(kind)
    else if p in body then SnakeASCII
    else if OnBorder(p, b) then BorderASCII
    else WhiteSpaceASCII
  }

  /** row is the buffer of row y: b.x + 1 bytes, column x holding Cell(..., x, y) for x < b.x,
      and the last byte never written, so still zero. */
  predicate IsRow(row: seq<byte>, b: Border, body: seq<Point>, food: Point, kind: int, y: int)
  {
    && |row| == b.x + 1
    && (forall x :: 0 <= x < b.x ==> row[x] == Cell(b, body, food, kind, x, y))
    && (b.x >= 0 ==> row[b.x] == 0)
  }

  /** One row: fill each column with space, then the border, then every segment on it, then
      the food. make([]byte, b.x + 1) would panic on a negative length, hence the requires. */
  method RenderRow(b: Border, body: seq<Point>, food: Point, kind: int, y: int) returns (row: seq<byte>)
    requires b.x + 1 >= 0
    ensures IsRow(row, b, body, food, kind, y)
  {
    var chars := new byte[b.x + 1](_ => 0);
    var x := 0;
    while x < b.x
      invariant 0 <= x && (x <= b.x || x == 0)
      invariant forall i :: 0 <= i < x ==> chars[i] == Cell(b, body, food, kind, i, y)
      invariant forall i :: x <= i < chars.Length ==> chars[i] == 0
    {
      chars[x] := WhiteSpaceASCII;
      if OnBorder(Point(x, y), b) {
        chars[x] := BorderASCII;
      }
      var j := 0;
      while j < |body|
        invariant 0 <= j <= |body|
        invariant chars[x] == if Point(x, y) in body[..j] then SnakeASCII
                              else if OnBorder(Point(x, y), b) then BorderASCII
                              else WhiteSpaceASCII
        invariant forall i :: 0 <= i < x ==> chars[i] == Cell(b, body, food, kind, i, y)
        invariant forall i :: x < i < chars.Length ==> chars[i] == 0
      {
        if x == body[j].x && y == body[j].y {
          chars[x] := SnakeASCII;
        }
        assert body[..j + 1] == body[..j] + [body[j]];
        j := j + 1;
      }
      assert body[..j] == body;
      if x == food.x && y == food.y {
        chars[x] := ToByte(kind);
      }
      x := x + 1;
    }
    row := chars[..];
  }

  /** All rows, top to bottom: b.y rows of the shape IsRow describes. The row buffer is only
      made inside the loop, so a negative width matters only when there is a row. */
  method RenderFrame(b: Border, body: seq<Point>, food: Point, kind: int) returns (frame: seq<seq<byte>>)
    requires b.y > 0 ==> b.x + 1 >= 0
    ensures |frame| == if b.y > 0 then b.y else 0
    ensures forall y :: 0 <= y < |frame| ==> IsRow(frame[y], b, body, food, kind, y)
  {
    frame := [];
    var y := 0;
    while y < b.y
      invariant 0 <= y && (y <= b.y || y == 0)
      invariant |frame| == y
      invariant forall i :: 0 <= i < y ==> IsRow(frame[i], b, body, food, kind, i)
    {
      var chars := RenderRow(b, body, food, kind, y);
      frame := frame + [chars];
      y := y + 1;
    }
  }

  /** With the food drawn as '0', the byte of a cell says which of the four cases holds. */
  lemma CellPriority(b: Border, body: seq<Point>, food: Point, x: int, y: int)
    ensures var c, p := Cell(b, body, food, FoodASCII as int, x, y), Point(x, y);
      && (c == FoodASCII <==> p == food)
      && (c == SnakeASCII <==> p != food && p in body)
      && (c == BorderASCII <==> p != food && p !in body && OnBorder(p, b))
      && (c == WhiteSpaceASCII <==> p != food && p !in body && !OnBorder(p, b))
  {
  }

  /** While the game runs, every border cell of the board is drawn as '+': neither the food nor
      any segment covers the border. */
  lemma OutlineIntact(w: World, b: Border, kind: int, x: int, y: int)
    requires Inv(w, b) && w.state == Running
    requires OnPerimeter(Point(x, y), b.x, b.y)
    ensures Cell(b, w.points, w.food, kind, x, y) == BorderASCII
  {
  }
}
