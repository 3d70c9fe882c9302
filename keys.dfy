/** The input listener's mapping from a key byte to the snake's heading (main.go:118-129). */
module Keys {
  import opened Geometry
  import opened Glyphs

  const KeyUp: byte := 119     // 'w'
  const KeyDown: byte := 115   // 's'
  const KeyLeft: byte := 97    // 'a'
  const KeyRight: byte := 100  // 'd'

  predicate IsSteeringKey(key: byte)
  {
    key == KeyUp || key == KeyDown || key == KeyLeft || key == KeyRight
  }

  /** The key that selects heading d. */
  function DirectionKey(d: Direction): (k: byte)
    ensures IsSteeringKey(k)
  {
    match d
    case Up => KeyUp
    case Down => KeyDown
    case Left => KeyLeft
    case Right => KeyRight
  }

  /** The heading after key arrives while the heading is current: a steering key selects its
      heading (even the reverse of current), and any other byte leaves current in place. */
  function KeyToDirection(key: byte, current: Direction): (d: Direction)
    ensures key == DirectionKey(d) || (d == current && !IsSteeringKey(key))
  {
    if key == KeyUp then Up
    else if key == KeyDown then Down
    else if key == KeyLeft then Left
    else if key == KeyRight then Right
    else current
  }

  /** Pressing the key of a heading always selects that heading, whatever the old one was. */
  lemma KeyRoundTrip(d: Direction, current: Direction)
    ensures KeyToDirection(DirectionKey(d), current) == d
  {
  }
}
