/** Concrete ticks that pin down move's order of checks and its corner cases. */
module Scenarios {
  import opened Geometry
  import opened Board
  import opened Keys
  import opened Movement

  /** A snake of three heading up at food directly above grows to four and scores. */
  lemma EatingAbove(b: Border, respawn: Point, score: int)
    ensures var w := World([Point(5, 5), Point(5, 6), Point(5, 7)], Up, score, Running, Point(5, 4));
      var r := Step(w, b, respawn);
      && r.points == [Point(5, 4), Point(5, 5), Point(5, 6), Point(5, 7)]
      && r.score == score + 1 && r.state == Running && r.food == respawn
  {
  }

  /** Turning left into the snake's own body ends the game and freezes the body. */
  lemma BitingTheBody(b: Border, respawn: Point)
    ensures var w := World([Point(5, 5), Point(5, 6), Point(4, 6), Point(4, 5), Point(4, 4)],
                           Left, 4, Running, Point(1, 1));
      Step(w, b, respawn) == w.(state := Over)
  {
  }

  /** The tail's cell counts as occupied although a slide would vacate it. */
  lemma ChasingTheTail(b: Border, respawn: Point)
    ensures var w := World([Point(5, 5), Point(6, 5), Point(6, 6), Point(5, 6)],
                           Down, 3, Running, Point(1, 1));
      Step(w, b, respawn).state == Over
  {
  }

  /** Reversing onto the neck is not prevented: pressing 'a' while heading right is fatal. */
  lemma ReversingOntoTheNeck(b: Border, respawn: Point)
    ensures var w := World([Point(5, 5), Point(4, 5)], Right, 1, Running, Point(1, 1));
      var turned := w.(direction := KeyToDirection(KeyLeft, w.direction));
      Step(turned, b, respawn) == turned.(state := Over)
  {
  }

  /** A head next to the left wall heading left hits the border of main's 20 by 20 board. */
  lemma HittingTheWall(b: Border, respawn: Point)
    requires WellFormed(b) && b.x == Width && b.y == Height
    ensures var w := World([Point(1, 5)], Left, 0, Running, Point(3, 3));
      Step(w, b, respawn) == w.(state := Over)
  {
  }

  /** Food that spawned under the body is eaten from beside it, and the grown snake then covers
      one cell twice while the game goes on running. */
  lemma EatingUnderTheBody(b: Border, respawn: Point)
    ensures var w := World([Point(5, 5), Point(5, 6), Point(6, 6), Point(6, 5)],
                           Right, 3, Running, Point(6, 5));
      var r := Step(w, b, respawn);
      && r.state == Running && |r.points| == 5
      && r.points[0] == r.points[4]
  {
  }

  /** move does not look at the state: after the game is over a tick still slides the snake. */
  lemma MovingAfterGameOver(b: Border, respawn: Point)
    requires WellFormed(b) && b.x == Width && b.y == Height
    ensures var w := World([Point(5, 5)], Right, 0, Over, Point(1, 1));
      Step(w, b, respawn) == w.(points := [Point(6, 5)])
  {
  }
}
