/** The food and its respawn by rejection sampling (food, newFood and spawn in main.go). */
module Feeding {
  import opened Geometry
  import opened Board
  import opened Glyphs

  /** draws lists the values that successive calls rand.Intn(n) return. Each lies in [0, n),
      and one of them is nonzero: if every draw were 0, the retry loop would never end. */
  predicate DrawsFor(draws: seq<int>, n: int)
  {
    && (forall i :: 0 <= i < |draws| ==> 0 <= draws[i] < n)
    && (exists i :: 0 <= i < |draws| && draws[i] != 0)
  }

  /** The position of the first nonzero draw. */
  function FirstNonzeroIndex(draws: seq<int>): (k: nat)
    requires exists i :: 0 <= i < |draws| && draws[i] != 0
    ensures k < |draws| && draws[k] != 0
    ensures forall j :: 0 <= j < k ==> draws[j] == 0
  {
    if draws[0] != 0 then 0
    else
      assert exists i :: 0 <= i < |draws[1..]| && draws[1..][i] != 0 by {
        var i :| 0 <= i < |draws| && draws[i] != 0;
        assert draws[1..][i - 1] != 0;
      }
      FirstNonzeroIndex(draws[1..]) + 1
  }

  /** The loop `for v == 0 { v = rand.Intn(n) }`: draw until a draw is nonzero. */
  method RetryUntilNonzero(draws: seq<int>, n: int) returns (v: int)
    requires DrawsFor(draws, n)
    ensures 1 <= v < n
    ensures v == draws[FirstNonzeroIndex(draws)]
  {
    ghost var k := FirstNonzeroIndex(draws);
    v := 0;
    var i := 0;
    while v == 0
      invariant i <= k + 1
      invariant v == 0 <==> i <= k
      invariant i == k + 1 ==> v == draws[k]
      decreases k + 1 - i
    {
      v := draws[i];
      i := i + 1;
    }
  }

  /** p lies strictly inside border b: never on a border row or column. */
  predicate Interior(p: Point, b: Border)
  {
    1 <= p.x <= b.x - 2 && 1 <= p.y <= b.y - 2
  }

  /** Where spawn puts the food, given the draws of its x loop and of its y loop. */
  function SpawnPoint(xs: seq<int>, ys: seq<int>, b: Border): (r: Point)
    requires DrawsFor(xs, b.x - 1) && DrawsFor(ys, b.y - 1)
    ensures Interior(r, b)
    ensures r.x in xs && r.y in ys
  {
    Point(xs[FirstNonzeroIndex(xs)], ys[FirstNonzeroIndex(ys)])
  }

  /** An interior cell is never a border cell of a border NewBorder built. */
  lemma InteriorIsOffBorder(p: Point, b: Border)
    requires WellFormed(b) && Interior(p, b)
    ensures !OnBorder(p, b)
  {
  }

  /** The food: the border it spawns inside, its cell and the byte it is drawn with.
      Only spawn changes it, and only its cell. */
  class Food {
    const border: Border
    var point: Point
    const kind: int

    /** newFood: drawn as '0', placed by a first spawn. */
    constructor (b: Border, xs: seq<int>, ys: seq<int>)
      requires DrawsFor(xs, b.x - 1) && DrawsFor(ys, b.y - 1)
      ensures border == b && kind == FoodASCII as int
      ensures point == SpawnPoint(xs, ys, b)
    {
      border := b;
      point := Point(0, 0);
      kind := FoodASCII as int;
      new;
      Spawn(xs, ys);
    }

    /** spawn: draw x from [0, border.x - 1) until it is nonzero, then y likewise. */
    method Spawn(xs: seq<int>, ys: seq<int>)
      requires DrawsFor(xs, border.x - 1) && DrawsFor(ys, border.y - 1)
      modifies this
      ensures point == SpawnPoint(xs, ys, border)
      ensures Interior(point, border)
    {
      var x := RetryUntilNonzero(xs, border.x - 1);
      var y := RetryUntilNonzero(ys, border.y - 1);
      point := Point(x, y);
    }
  }
}
