/**
 * Value types of the word search: cells, direction vectors, placements, and the
 * arithmetic of straight lines through a 3-D grid.
 */
module Geometry {

  /** A cell index: (row, column, aisle) along the grid's first, second and third axis. */
  datatype Position = Position(row: int, column: int, aisle: int)

  /** A movement per step along each axis. */
  datatype Vector = Vector(x: int, y: int, z: int)

  /** A word anchored at a start cell and running in one direction. */
  datatype Composite = Composite(pos: Position, vec: Vector, word: string)

  /** The cell the no-argument Position constructor builds. */
  const Origin := Position(0, 0, 0)

  /** The vector the no-argument Vector constructor builds: no movement at all. */
  const Zero := Vector(0, 0, 0)

  /** The Composite built from a word alone, before it is randomized: every letter sits on the origin. */
  function Unplaced(word: string): (c: Composite)
    ensures c.word == word
    ensures forall i :: LineAt(c.pos, c.vec, i) == Origin
  {
    Composite(Origin, Zero, word)
  }

  /** One step from `p` along `v` (the Position(Position, Vector) constructor). */
  function Step(p: Position, v: Vector): Position
  {
    Position(p.row + v.x, p.column + v.y, p.aisle + v.z)
  }

  /** The cell of letter `i` of a word anchored at `p` in direction `v`: p + i*v. */
  function LineAt(p: Position, v: Vector, i: int): Position
  {
    Position(p.row + v.x * i, p.column + v.y * i, p.aisle + v.z * i)
  }

  /** The first `n` cells of the line from `p` along `v`. */
  function Line(p: Position, v: Vector, n: nat): (s: seq<Position>)
    ensures |s| == n
  {
    seq(n, i => LineAt(p, v, i))
  }

  /** A direction triple: every component in {-1, 0, 1}; the zero vector is one of the 27. */
  predicate IsDirection(v: Vector)
  {
    -1 <= v.x <= 1 && -1 <= v.y <= 1 && -1 <= v.z <= 1
  }

  /** `p` indexes a cell of `g`. */
  predicate InBounds(g: array3<char>, p: Position)
  {
    0 <= p.row < g.Length0 && 0 <= p.column < g.Length1 && 0 <= p.aisle < g.Length2
  }

  /** Scan order on cells: by row, then column, then aisle. */
  predicate CellBefore(q: Position, p: Position)
  {
    q.row < p.row
    || (q.row == p.row && (q.column < p.column || (q.column == p.column && q.aisle < p.aisle)))
  }

  /** Order in which directions are tried at one cell: by x, then y, then z, each from -1 up. */
  predicate DirBefore(u: Vector, v: Vector)
  {
    u.x < v.x || (u.x == v.x && (u.y < v.y || (u.y == v.y && u.z < v.z)))
  }

  /** Order in which (cell, direction) candidates are tried by the search. */
  predicate Before(q: Position, u: Vector, p: Position, v: Vector)
  {
    CellBefore(q, p) || (q == p && DirBefore(u, v))
  }

  /** Distinct candidates are always ordered one way or the other. */
  lemma BeforeTotal(q: Position, u: Vector, p: Position, v: Vector)
    requires (q, u) != (p, v)
    ensures Before(q, u, p, v) || Before(p, v, q, u)
  {
  }

  /** Walking one step from letter i's cell gives letter i+1's cell. */
  lemma LineAtStep(p: Position, v: Vector, i: int)
    ensures LineAt(Step(p, v), v, i) == LineAt(p, v, i + 1)
    ensures LineAt(p, v, 0) == p
  {
  }

  /** Cells 1..n-1 of the line from `p` are cells 0..n-2 of the line from the next cell. */
  lemma LineAtShift(p: Position, v: Vector, n: nat)
    ensures forall i :: 1 <= i < n ==> LineAt(p, v, i) == LineAt(Step(p, v), v, i - 1)
  {
    forall i | 1 <= i < n
      ensures LineAt(p, v, i) == LineAt(Step(p, v), v, i - 1)
    {
      LineAtStep(p, v, i - 1);
    }
  }

  /** Along a non-zero vector, distinct letters occupy distinct cells. */
  lemma LineAtInjective(p: Position, v: Vector, i: int, j: int)
    requires v != Zero
    requires LineAt(p, v, i) == LineAt(p, v, j)
    ensures i == j
  {
    if v.x != 0 {
      assert v.x * (i - j) == v.x * i - v.x * j == 0;
      ZeroProduct(v.x, i - j);
    } else if v.y != 0 {
      assert v.y * (i - j) == v.y * i - v.y * j == 0;
      ZeroProduct(v.y, i - j);
    } else {
      assert v.z * (i - j) == v.z * i - v.z * j == 0;
      ZeroProduct(v.z, i - j);
    }
  }

  lemma ZeroProduct(a: int, b: int)
    requires a != 0 && a * b == 0
    ensures b == 0
  {
  }

  /** Along the zero vector every letter sits on the anchor cell. */
  lemma LineAtZero(p: Position, i: int)
    ensures LineAt(p, Zero, i) == p
  {
  }
}
