/** The game state and one tick of the snake (game, snake, move, onFood, onSnake in main.go). */
module Movement {
  import opened Geometry
  import opened Board
  import opened Feeding
  import opened Glyphs
  import opened Keys

  datatype State = Running | Over

  /** Board size and start cell that main uses. */
  const Width := 20
  const Height := 20
  const Start := Point(10, 10)

  /** The session: whether it is still running and the number of food cells eaten. */
  class Game {
    var state: State
    var score: int

    /** newGame. */
    constructor ()
      ensures state == Running && score == 0
    {
      state := Running;
      score := 0;
    }
  }

  /** onFood: the cell is the food's cell. */
  predicate OnFood(p: Point, food: Point)
  {
    p == food
  }

  /** onSnake: scan the segments from the head and stop at the first that equals p. */
  function OnSnake(p: Point, points: seq<Point>): (r: bool)
    ensures r <==> p in points
  {
    if points == [] then false
    else if p == points[0] then true
    else OnSnake(p, points[1..])
  }

  /** Consecutive segments are 4-neighbours. */
  predicate Chain(points: seq<Point>)
  {
    forall i :: 1 <= i < |points| ==> Adjacent(points[i - 1], points[i])
  }

  /** Everything one tick reads and writes: the snake's segments (head first) and heading,
      the game's score and state, and the food's cell. */
  datatype World = World(points: seq<Point>, direction: Direction, score: int, state: State, food: Point)

  /** The four arms of move's second switch. */
  datatype Branch = Ate | HitSelf | HitBorder | Slid

  /** The cell the head would enter. */
  function NextHead(w: World): (h: Point)
    requires |w.points| > 0
    ensures Adjacent(w.points[0], h)
  {
    Shift(w.points[0], w.direction)
  }

  /** The arm move takes for a new head: food first, then the snake's own segments (all of
      them, the tail included), then the border. */
  function Classify(head: Point, w: World, b: Border): (r: Branch)
    ensures r == Ate <==> head == w.food
    ensures r == HitSelf <==> head != w.food && head in w.points
    ensures r == HitBorder <==> head != w.food && head !in w.points && OnBorder(head, b)
    ensures r == Slid <==> head != w.food && head !in w.points && !OnBorder(head, b)
  {
    if OnFood(head, w.food) then Ate
    else if OnSnake(head, w.points) then HitSelf
    else if OnBorder(head, b) then HitBorder
    else Slid
  }

  /** One call of move, with respawn the cell spawn would pick if the food is eaten. */
  function Step(w: World, b: Border, respawn: Point): (r: World)
    requires |w.points| > 0
    ensures |r.points| > 0
    ensures r.direction == w.direction
    ensures r.score - w.score == |r.points| - |w.points| && 0 <= r.score - w.score <= 1
    ensures w.state == Over ==> r.state == Over
    ensures r.points == w.points || (r.points[0] == NextHead(w) && r.points[1..] <= w.points)
  {
    var head := NextHead(w);
    match Classify(head, w, b)
    case Ate => w.(points := [head] + w.points, score := w.score + 1, food := respawn)
    case HitSelf => w.(state := Over)
    case HitBorder => w.(state := Over)
    case Slid => w.(points := [head] + w.points[..|w.points| - 1])
  }

  /** The four arms, spelled out: eating grows the snake by its new head and moves the food;
      a collision ends the game and changes nothing else; otherwise the snake slides. */
  lemma StepArms(w: World, b: Border, respawn: Point)
    requires |w.points| > 0
    ensures var h, r := NextHead(w), Step(w, b, respawn);
      match Classify(h, w, b)
      case Ate =>
        r.points == [h] + w.points && r.score == w.score + 1 && r.state == w.state && r.food == respawn
      case HitSelf =>
        h in w.points && r == w.(state := Over)
      case HitBorder =>
        h !in w.points && OnBorder(h, b) && r == w.(state := Over)
      case Slid =>
        h != w.food && h !in w.points && !OnBorder(h, b)
        && r.points == [h] + w.points[..|w.points| - 1] && |r.points| == |w.points|
        && r.score == w.score && r.state == w.state && r.food == w.food
  {
  }

  /** Food lying under the snake's body is eaten, not collided with. */
  lemma FoodBeatsBody(w: World, b: Border)
    requires |w.points| > 0 && NextHead(w) == w.food && w.food in w.points
    ensures Classify(NextHead(w), w, b) == Ate
  {
  }

  /** Every arm keeps consecutive segments adjacent. */
  lemma StepKeepsChain(w: World, b: Border, respawn: Point)
    requires |w.points| > 0 && Chain(w.points)
    ensures Chain(Step(w, b, respawn).points)
  {
  }

  /** What holds in every state reachable from the start: the border is as NewBorder built it,
      the snake has one more segment than the score, its segments form a chain, the food is
      inside the border, and while the game runs every segment is inside the border too. */
  ghost predicate Inv(w: World, b: Border)
  {
    && WellFormed(b)
    && w.score >= 0
    && |w.points| == w.score + 1
    && Chain(w.points)
    && Interior(w.food, b)
    && (w.state == Running ==> forall i :: 0 <= i < |w.points| ==> Interior(w.points[i], b))
  }

  /** The state main starts from, with the food at its first spawn. */
  function Initial(food: Point): (w: World)
    ensures |w.points| == 1 && w.score == 0 && w.state == Running
  {
    World([Start], Right, 0, Running, food)
  }

  lemma InitialInv(b: Border, food: Point)
    requires WellFormed(b) && b.x == Width && b.y == Height && Interior(food, b)
    ensures Inv(Initial(food), b)
  {
  }

  /** Each tick keeps the invariant, provided a respawn lands inside the border. */
  lemma StepKeepsInv(w: World, b: Border, respawn: Point)
    requires Inv(w, b) && Interior(respawn, b)
    ensures Inv(Step(w, b, respawn), b)
  {
  }

  /** What the two loops of main do to the state, in the order they happen: a key byte the
      input loop reads, or a tick of the render loop (with the draws its spawn would use). */
  datatype Event = Key(key: byte) | Tick(xs: seq<int>, ys: seq<int>)

  predicate TicksDrawFor(events: seq<Event>, b: Border)
  {
    forall i :: 0 <= i < |events| && events[i].Tick? ==>
      DrawsFor(events[i].xs, b.x - 1) && DrawsFor(events[i].ys, b.y - 1)
  }

  /** The state after one event. */
  function Apply(w: World, b: Border, e: Event): (r: World)
    requires |w.points| > 0
    requires e.Tick? ==> DrawsFor(e.xs, b.x - 1) && DrawsFor(e.ys, b.y - 1)
    ensures |r.points| > 0
    ensures e.Key? ==> r == w.(direction := KeyToDirection(e.key, w.direction))
    ensures e.Tick? ==> r == Step(w, b, SpawnPoint(e.xs, e.ys, b))
  {
    match e
    case Key(k) => w.(direction := KeyToDirection(k, w.direction))
    case Tick(xs, ys) => Step(w, b, SpawnPoint(xs, ys, b))
  }

  /** The state after a run of events: the score never falls and a game that is over stays over. */
  function Run(w: World, b: Border, events: seq<Event>): (r: World)
    requires |w.points| > 0 && TicksDrawFor(events, b)
    ensures |r.points| > 0
    ensures r.score >= w.score
    ensures w.state == Over ==> r.state == Over
    decreases |events|
  {
    if events == [] then w
    else Run(Apply(w, b, events[0]), b, events[1..])
  }

  /** The invariant holds after any run of events from a state that satisfies it. */
  lemma {:induction false} RunKeepsInv(w: World, b: Border, events: seq<Event>)
    requires Inv(w, b) && TicksDrawFor(events, b)
    ensures Inv(Run(w, b, events), b)
    decreases |events|
  {
    if events != [] {
      if events[0].Tick? {
        StepKeepsInv(w, b, SpawnPoint(events[0].xs, events[0].ys, b));
      }
      RunKeepsInv(Apply(w, b, events[0]), b, events[1..]);
    }
  }

  /** From main's start (20 by 20 border, one segment at (10, 10), food at its first spawn),
      any interleaving of key bytes and ticks reaches only states satisfying the invariant. */
  lemma ReachableInv(b: Border, food: Point, events: seq<Event>)
    requires WellFormed(b) && b.x == Width && b.y == Height && Interior(food, b)
    requires TicksDrawFor(events, b)
    ensures Inv(Run(Initial(food), b, events), b)
  {
    InitialInv(b, food);
    RunKeepsInv(Initial(food), b, events);
  }

  /** The start of main: newGame, newSnake, newBorder(20, 20) and newFood, whose first spawn
      uses the draws xs and ys. The state these objects hold is Initial of the food's cell. */
  method NewSession(xs: seq<int>, ys: seq<int>) returns (g: Game, s: Snake, b: Border, f: Food)
    requires DrawsFor(xs, Width - 1) && DrawsFor(ys, Height - 1)
    ensures WellFormed(b) && b.x == Width && b.y == Height && f.border == b
    ensures f.point == SpawnPoint(xs, ys, b)
    ensures s.Snap(g, f) == Initial(f.point)
    ensures Inv(s.Snap(g, f), b)
  {
    g := new Game();
    s := new Snake();
    b := NewBorder(Width, Height);
    f := new Food(b, xs, ys);
    InitialInv(b, f.point);
  }

  /** The snake: segments head first, and the heading of the next step. */
  class Snake {
    var points: seq<Point>
    var direction: Direction

    /** newSnake: one segment at the start cell, heading right. */
    constructor ()
      ensures points == [Start] && direction == Right
    {
      points := [Start];
      direction := Right;
    }

    /** The part of the state a tick reads and writes. */
    function Snap(g: Game, f: Food): World
      reads this, g, f
    {
      World(points, direction, g.score, g.state, f.point)
    }

    /** The input loop's update of the heading for one key byte. */
    method Steer(key: byte)
      modifies this`direction
      ensures direction == KeyToDirection(key, old(direction))
    {
      if key == KeyUp {
        direction := Up;
      } else if key == KeyDown {
        direction := Down;
      } else if key == KeyLeft {
        direction := Left;
      } else if key == KeyRight {
        direction := Right;
      }
    }

    /** move: compute the new head, then take the first arm that applies. */
    method Move(g: Game, f: Food, b: Border, xs: seq<int>, ys: seq<int>)
      requires |points| > 0
      requires DrawsFor(xs, f.border.x - 1) && DrawsFor(ys, f.border.y - 1)
      modifies this`points, g, f
      ensures var head := Shift(old(points)[0], direction);
        if head == old(f.point) then
          && points == [head] + old(points) && g.score == old(g.score) + 1
          && g.state == old(g.state) && f.point == SpawnPoint(xs, ys, f.border)
        else if head in old(points) || OnBorder(head, b) then
          && points == old(points) && g.score == old(g.score)
          && g.state == Over && f.point == old(f.point)
        else
          && points == [head] + old(points)[..|old(points)| - 1] && g.score == old(g.score)
          && g.state == old(g.state) && f.point == old(f.point)
      ensures Snap(g, f) == Step(old(Snap(g, f)), b, SpawnPoint(xs, ys, f.border))
    {
      var headPoint: Point;
      match direction {
        case Up => headPoint := Point(points[0].x, points[0].y - 1);
        case Down => headPoint := Point(points[0].x, points[0].y + 1);
        case Left => headPoint := Point(points[0].x - 1, points[0].y);
        case Right => headPoint := Point(points[0].x + 1, points[0].y);
      }

      var newPoints := [headPoint];
      if OnFood(headPoint, f.point) {
        g.score := g.score + 1;
        newPoints := newPoints + points;
        points := newPoints;
        f.Spawn(xs, ys);
      } else if OnSnake(headPoint, points) {
        g.state := Over;
      } else if OnBorder(headPoint, b) {
        g.state := Over;
      } else {
        newPoints := newPoints + points[..|points| - 1];
        points := newPoints;
      }
    }
  }
}
