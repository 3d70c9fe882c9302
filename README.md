# Snake game — a verified model of its game logic

This project models the game logic of a terminal snake game written in Go (`main.go`). The
model covers:

- the rectangular border and how it is built;
- placing the food by rejection sampling;
- one tick of the snake (`move`): food first, then the snake's own body, then the border,
  otherwise a slide;
- the bytes of each rendered row;
- the mapping from key bytes to headings.

Modules follow the program's components:

- `Glyphs` (`glyphs.dfy`): the byte type and the four ASCII codes.
- `Geometry` (`geometry.dfy`): cells, headings and the one-step shift.
- `Board` (`board.dfy`): the border and its construction in four loops.
- `Feeding` (`feeding.dfy`): the retry loop and the `Food` class with `Spawn`.
- `Keys` (`keys.dfy`): the key mapping.
- `Movement` (`movement.dfy`): the `Game` and `Snake` classes and `Move`.
- `Screen` (`screen.dfy`): the row and frame buffers.
- `Scenarios` (`scenarios.dfy`): concrete ticks.

State that the program changes in place is modelled by classes:

- `Game` holds `state` and `score`.
- `Snake` holds `points` and `direction`.
- `Food` holds `point`.

`Snake.Move` states its whole new state. It is also tied to the pure function `Step` on a
`World` value, which holds the segments, heading, score, state and food cell. The lemmas
about `Step`, `Apply` and `Run` give the invariants the game keeps:

- the snake always has `score + 1` segments;
- consecutive segments are 4-neighbours;
- the food is strictly inside the border;
- while the game runs, every segment is strictly inside the border;
- the score never decreases;
- `Over` is never left.

A sequence of `Event`s (a key byte or a tick) is a sequential interleaving of what the input
loop and the render loop do to the shared state.

The random source is a parameter. Each retry loop in `spawn` gets the sequence of values that
successive `rand.Intn(n)` calls return. Each value lies in `[0, n)`, and one of them must be
nonzero, because the Go loop never ends otherwise. With a board of width or height 2 every draw
is 0, and below that `rand.Intn` panics. So `DrawsFor` can only be met when the dimension is at
least 3.

Two behaviours of `main.go` shape the model:

- Rendering priority: each later write in the row loop wins, so food is drawn over the snake,
  the snake over the border and the border over space (`main.go:149-166`). `Screen.Cell` and
  `Screen.CellPriority` state this order.
- `move` does not check the game state, and the render loop keeps calling it after the game is
  over, until `main` exits. `Step` does the same (see `Scenarios.MovingAfterGameOver`), so the
  state is monotone rather than frozen.

## Model

| member | source | states |
|---|---|---|
| `Glyphs.ToByte` | main.go:165 | Go's `byte(n)` conversion keeps n modulo 256 |
| `Geometry.Shift` | main.go:195-203 | the new head is a 4-neighbour of the old head; up and down keep x, up decreases y, left decreases x |
| `Geometry.ShiftCoversNeighbours` | main.go:195-203 | the four headings reach exactly the four neighbours of a cell, each a different one |
| `Board.NewBorder` | main.go:78-103 | the map's keys are exactly the perimeter cells of the x-by-y rectangle, every value is true, and x and y are recorded |
| `Board.OnBorder` | main.go:264-266 | for a border built by NewBorder, a cell reads as border exactly when it is on the perimeter |
| `Board.BorderCellCount` | main.go:78-103 | a border of at least 2 by 2 has 2x + 2y - 4 cells |
| `Feeding.RetryUntilNonzero` | main.go:246-252 | the retry loop returns the first nonzero draw, which lies in [1, n) |
| `Feeding.SpawnPoint` | main.go:243-256 | the spawned cell is strictly inside the border: 1 <= x <= X-2 and 1 <= y <= Y-2 |
| `Feeding.InteriorIsOffBorder` | main.go:243-256 | an interior cell is never a border cell |
| `Feeding.Food.constructor` | main.go:62-71 | the food keeps its border, is drawn as '0' and sits at its first spawn |
| `Feeding.Food.Spawn` | main.go:243-256 | the food moves to the spawned cell, which is interior; its border and kind are unchanged (constant fields) |
| `Keys.KeyToDirection` | main.go:118-129 | the resulting heading is the one whose key was pressed, or the old heading when the byte is not w, s, a or d |
| `Keys.KeyRoundTrip` | main.go:121-128 | pressing the key of a heading selects that heading from every heading, the reverse one included |
| `Movement.Game.constructor` | main.go:32-37 | a new game is running with score 0 |
| `Movement.Snake.constructor` | main.go:49-54 | a new snake is one segment at (10, 10) heading right |
| `Movement.Snake.Steer` | main.go:118-129 | the input loop sets the heading to KeyToDirection of the key and the old heading |
| `Movement.OnSnake` | main.go:269-278 | the front-to-back scan answers true exactly when the cell is one of the segments |
| `Movement.NextHead` | main.go:195-203 | the candidate head is adjacent to the current head |
| `Movement.Step` | main.go:190-224 | heading unchanged; score grows by 0 or 1 and by exactly as much as the length; Over stays Over; the new body is the old one, or the new head followed by a prefix of the old body |
| `Movement.StepArms` | main.go:209-222 | food: head prepended, score + 1, food respawned, state kept; body or border hit: state Over and nothing else changes; otherwise: head prepended, tail dropped, length, score, state and food kept |
| `Movement.FoodBeatsBody` | main.go:209-215 | food lying under the body is eaten, not collided with |
| `Movement.StepKeepsChain` | main.go:207-221 | every arm keeps consecutive segments 4-adjacent |
| `Movement.StepKeepsInv` | main.go:190-224 | a tick keeps the invariant (length = score + 1, chain, food interior, segments interior while running) when the respawn is interior |
| `Movement.Initial` | main.go:109-112 | the start state has one segment, score 0 and is running |
| `Movement.InitialInv` | main.go:109-112 | the start state on main's 20 by 20 border satisfies the invariant |
| `Movement.Apply` | main.go:116-143 | a key event changes only the heading, as KeyToDirection says; a tick is one Step with the food respawned at SpawnPoint of the tick's draws |
| `Movement.Run` | main.go:116-143 | over any interleaving of keys and ticks the snake stays non-empty, the score never falls and Over is never left |
| `Movement.RunKeepsInv` | main.go:116-143 | the invariant holds after any interleaving of keys and ticks |
| `Movement.ReachableInv` | main.go:105-143 | every state reachable from main's start satisfies the invariant; in particular the food is never on the border |
| `Movement.Classify` | main.go:209-222 | the arm taken: food exactly when the head is the food cell; self exactly when it is not food but a segment; border exactly when neither but a border cell; slide otherwise |
| `Movement.NewSession` | main.go:109-112 | main's start objects: a well-formed 20 by 20 border, food at its first spawn, and a snapshot equal to Initial of the food cell, which satisfies the invariant |
| `Movement.Snake.Move` | main.go:190-224 | the new snake, score, state and food per arm, in the order food, body, border, slide; the heading is unchanged; the result agrees with Step |
| `Screen.RenderRow` | main.go:147-168 | the row has X + 1 bytes; column x < X holds food, else snake, else border, else space; the last byte stays 0 |
| `Screen.RenderFrame` | main.go:146-168 | the frame has Y rows, row y built as RenderRow specifies |
| `Screen.CellPriority` | main.go:149-166 | with the food drawn as '0', the byte of a cell says which of food, snake, border and space applies, in that priority |
| `Screen.OutlineIntact` | main.go:146-168 | while the game runs, every border cell is drawn as '+' |
| `Scenarios.EatingAbove` | main.go:209-214 | a three-segment snake heading up at food above grows to four segments and scores one |
| `Scenarios.BitingTheBody` | main.go:215-216 | a head entering the body ends the game with the body unchanged |
| `Scenarios.ChasingTheTail` | main.go:269-277 | entering the tail's cell is fatal, although a slide would vacate it |
| `Scenarios.ReversingOntoTheNeck` | main.go:121-128 | a 180-degree turn is accepted and then kills the snake on its neck |
| `Scenarios.HittingTheWall` | main.go:217-218 | a head moving onto the border ends the game with nothing else changed |
| `Scenarios.EatingUnderTheBody` | main.go:209-214 | food spawned under the body is eaten, after which the snake covers one cell twice and keeps running |
| `Scenarios.MovingAfterGameOver` | main.go:190-224 | a tick after game over still slides the snake |

## Left out

- Terminal setup and teardown (`stty`, cursor escape codes, `clear`) are operating-system I/O.
- `fmt.Println` of each row and of the `Score:` line is output. The model stops at the bytes
  of a row.
- Reading key bytes with `bufio` and its errors are input. The model starts at the byte read.
- The goroutines, the busy wait on `game.state` and `time.Sleep` are concurrency and timing.
  Their unsynchronised sharing of the state is modelled only as a sequential interleaving of key
  and tick events (`Movement.Run`).
- The distribution of `math/rand` is left out. Each call is just some value in `[0, n)`.
- Feeding.Food.Spawn: the draws are finite sequences that must hold a nonzero value. The
  program's unbounded retry, which with probability 0 never ends, is not modelled.
- Movement.Step: Go's 64-bit `int` is unbounded here. Wrap-around of the score or of a
  coordinate needs more than 2^63 ticks and is not modelled.
- Screen.RenderRow: returns the contents of the row buffer as a sequence rather than the
  `[]byte` slice itself.
- `onFood` is `Movement.OnFood`, a plain equality test with no contract of its own. What it
  decides is stated by `Movement.StepArms` and `Movement.Snake.Move`.
