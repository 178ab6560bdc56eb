/**
 * The solver: checkLine, checkAt, search, searchForAll and hasAll of
 * src/WordSearch3D.java, over a rectangular 3-D grid of characters.
 */
module Solver {
  import opened Wrappers
  import opened Geometry

  /** getCharAtPos: the character stored at cell `p`. */
  function GetCharAtPos(g: array3<char>, p: Position): char
    requires InBounds(g, p)
    reads g
  {
    g[p.row, p.column, p.aisle]
  }

  /**
   * checkLine: the empty word matches anywhere without a bounds check; otherwise
   * the start cell must be inside the grid, hold the first letter, and the rest
   * of the word must match from the next cell along `v`.
   */
  function CheckLine(g: array3<char>, p: Position, v: Vector, w: string): (b: bool)
    reads g
    ensures b && |w| > 0 ==> InBounds(g, p) && GetCharAtPos(g, p) == w[0]
    ensures b ==> forall i :: 0 <= i < |w| ==> InBounds(g, LineAt(p, v, i))
    decreases |w|
  {
    if |w| == 0 then true
    else if !InBounds(g, p) then false
    else if GetCharAtPos(g, p) == w[0] then
      LineAtShift(p, v, |w|);
      CheckLine(g, Step(p, v), v, w[1..])
    else false
  }

  /** Reference reading of a line: letter i of `w` is stored at cell p + i*v. */
  ghost predicate ReadsAlong(g: array3<char>, p: Position, v: Vector, w: string)
    reads g
  {
    forall i :: 0 <= i < |w| ==>
      InBounds(g, LineAt(p, v, i)) && GetCharAtPos(g, LineAt(p, v, i)) == w[i]
  }

  /** The recursive check agrees with the closed-form reading of the line. */
  lemma {:induction false} CheckLineReadsAlong(g: array3<char>, p: Position, v: Vector, w: string)
    ensures CheckLine(g, p, v, w) <==> ReadsAlong(g, p, v, w)
    decreases |w|
  {
    if |w| > 0 {
      var rest := w[1..];
      CheckLineReadsAlong(g, Step(p, v), v, rest);
      LineAtStep(p, v, 0);
      forall i | 0 <= i < |rest|
        ensures LineAt(Step(p, v), v, i) == LineAt(p, v, i + 1)
      {
        LineAtStep(p, v, i);
      }
      if ReadsAlong(g, p, v, w) {
        assert InBounds(g, LineAt(p, v, 0));
        forall i | 0 <= i < |rest|
          ensures InBounds(g, LineAt(Step(p, v), v, i))
          ensures GetCharAtPos(g, LineAt(Step(p, v), v, i)) == rest[i]
        {
          assert LineAt(Step(p, v), v, i) == LineAt(p, v, i + 1);
        }
      }
      if CheckLine(g, p, v, w) {
        forall i | 0 <= i < |w|
          ensures InBounds(g, LineAt(p, v, i)) && GetCharAtPos(g, LineAt(p, v, i)) == w[i]
        {
          if i > 0 {
            assert LineAt(Step(p, v), v, i - 1) == LineAt(p, v, i);
          }
        }
      }
    }
  }

  /**
   * (p, v) is the first match of `w` in scan order: p is a cell, v a direction,
   * the word reads from p along v, and no candidate tried earlier matches.
   */
  ghost predicate IsFirstMatch(g: array3<char>, p: Position, v: Vector, w: string)
    reads g
  {
    InBounds(g, p) && IsDirection(v) && CheckLine(g, p, v, w)
    && forall q, u :: InBounds(g, q) && IsDirection(u) && Before(q, u, p, v) ==> !CheckLine(g, q, u, w)
  }

  /**
   * What search returns: null for a null grid, a null word or an empty word;
   * otherwise the cells of the first match in scan order, or null when no cell
   * and direction match.
   */
  ghost predicate IsSearchResult(g: array3?<char>, word: Option<string>, locs: Option<seq<Position>>)
    reads g
  {
    if g == null || word.None? || |word.value| == 0 then locs.None?
    else match locs
      case None =>
        forall p, v :: InBounds(g, p) && IsDirection(v) ==> !CheckLine(g, p, v, word.value)
      case Some(s) =>
        exists p, v :: IsFirstMatch(g, p, v, word.value) && s == Line(p, v, |word.value|)
  }

  /** The word occurs on some straight line of the grid. */
  ghost predicate Findable(g: array3?<char>, word: Option<string>)
    reads g
  {
    g != null && word.Some? && |word.value| > 0
    && exists p, v :: InBounds(g, p) && IsDirection(v) && CheckLine(g, p, v, word.value)
  }

  /** getCharPositions: the cells start + i*vec for each letter i of the word. */
  method GetCharPositions(comp: Composite) returns (locs: seq<Position>)
    ensures |locs| == |comp.word|
    ensures forall i :: 0 <= i < |locs| ==> locs[i] == LineAt(comp.pos, comp.vec, i)
  {
    var len := |comp.word|;
    var arr := new Position[len];
    for i := 0 to len
      invariant forall j :: 0 <= j < i ==> arr[j] == LineAt(comp.pos, comp.vec, j)
    {
      arr[i] := Position(comp.pos.row + comp.vec.x * i,
                         comp.pos.column + comp.vec.y * i,
                         comp.pos.aisle + comp.vec.z * i);
    }
    locs := arr[..];
  }

  /**
   * checkAt: tries the 27 direction triples at `pos` in x, then y, then z order,
   * each from -1 to 1, and returns the first one along which `w` reads.
   */
  method CheckAt(g: array3<char>, pos: Position, w: string) returns (comp: Option<Composite>)
    ensures comp.Some? ==>
      && comp.value.pos == pos && comp.value.word == w && IsDirection(comp.value.vec)
      && CheckLine(g, pos, comp.value.vec, w)
      && (forall u :: IsDirection(u) && DirBefore(u, comp.value.vec) ==> !CheckLine(g, pos, u, w))
    ensures comp.None? <==> forall u :: IsDirection(u) ==> !CheckLine(g, pos, u, w)
  {
    var x := -1;
    while x <= 1
      invariant -1 <= x <= 2
      invariant forall u :: IsDirection(u) && u.x < x ==> !CheckLine(g, pos, u, w)
    {
      var y := -1;
      while y <= 1
        invariant -1 <= y <= 2
        invariant forall u :: IsDirection(u) && (u.x < x || (u.x == x && u.y < y)) ==> !CheckLine(g, pos, u, w)
      {
        var z := -1;
        while z <= 1
          invariant -1 <= z <= 2
          invariant forall u :: IsDirection(u) && DirBefore(u, Vector(x, y, z)) ==> !CheckLine(g, pos, u, w)
        {
          var vec := Vector(x, y, z);
          if CheckLine(g, pos, vec, w) {
            return Some(Composite(pos, vec, w));
          }
          z := z + 1;
        }
        y := y + 1;
      }
      x := x + 1;
    }
    return None;
  }

  /**
   * search: scans the cells by row, then column, then aisle, and returns the
   * cells of the first (cell, direction) candidate that matches.
   */
  method Search(g: array3?<char>, word: Option<string>) returns (locs: Option<seq<Position>>)
    ensures IsSearchResult(g, word, locs)
  {
    if g == null {
      return None;
    } else if word.None? || |word.value| == 0 {
      return None;
    }
    var w := word.value;
    var r := 0;
    while r < g.Length0
      invariant 0 <= r <= g.Length0
      invariant forall q, u :: InBounds(g, q) && IsDirection(u) && q.row < r ==> !CheckLine(g, q, u, w)
    {
      var c := 0;
      while c < g.Length1
        invariant 0 <= c <= g.Length1
        invariant forall q, u ::
          InBounds(g, q) && IsDirection(u) && CellBefore(q, Position(r, c, 0)) ==> !CheckLine(g, q, u, w)
      {
        var a := 0;
        while a < g.Length2
          invariant 0 <= a <= g.Length2
          invariant forall q, u ::
            InBounds(g, q) && IsDirection(u) && CellBefore(q, Position(r, c, a)) ==> !CheckLine(g, q, u, w)
        {
          var pos := Position(r, c, a);
          var comp := CheckAt(g, pos, w);
          if comp.Some? {
            var positions := GetCharPositions(comp.value);
            assert IsFirstMatch(g, pos, comp.value.vec, w);
            assert positions == Line(pos, comp.value.vec, |w|);
            return Some(positions);
          }
          a := a + 1;
        }
        c := c + 1;
      }
      r := r + 1;
    }
    return None;
  }

  /** searchForAll: one search result per word, in the order of the words. */
  method SearchForAll(g: array3?<char>, words: seq<Option<string>>) returns (locations: seq<Option<seq<Position>>>)
    ensures |locations| == |words|
    ensures forall i :: 0 <= i < |words| ==> IsSearchResult(g, words[i], locations[i])
  {
    var arr := new Option<seq<Position>>[|words|];
    for i := 0 to |words|
      invariant forall j :: 0 <= j < i ==> IsSearchResult(g, words[j], arr[j])
    {
      arr[i] := Search(g, words[i]);
    }
    locations := arr[..];
  }

  /** hasAll: true exactly when every word of the list is found. */
  method HasAll(g: array3?<char>, words: seq<Option<string>>) returns (all: bool)
    ensures all <==> forall i :: 0 <= i < |words| ==> Findable(g, words[i])
  {
    var locations := SearchForAll(g, words);
    for i := 0 to |locations|
      invariant forall j :: 0 <= j < i ==> Findable(g, words[j])
    {
      FoundIffFindable(g, words[i], locations[i]);
      if locations[i].None? {
        return false;
      }
    }
    return true;
  }

  /** A search result is non-null exactly when the word is findable. */
  lemma FoundIffFindable(g: array3?<char>, word: Option<string>, locs: Option<seq<Position>>)
    requires IsSearchResult(g, word, locs)
    ensures locs.Some? <==> Findable(g, word)
  {
    if locs.Some? {
      var p, v :| IsFirstMatch(g, p, v, word.value) && locs.value == Line(p, v, |word.value|);
      assert InBounds(g, p) && IsDirection(v) && CheckLine(g, p, v, word.value);
    }
  }

  /** Search is deterministic: the scan order fixes at most one result. */
  lemma SearchDeterministic(g: array3?<char>, word: Option<string>, r1: Option<seq<Position>>, r2: Option<seq<Position>>)
    requires IsSearchResult(g, word, r1) && IsSearchResult(g, word, r2)
    ensures r1 == r2
  {
    if g != null && word.Some? && |word.value| > 0 {
      var w := word.value;
      if r1.Some? && r2.Some? {
        var p1, v1 :| IsFirstMatch(g, p1, v1, w) && r1.value == Line(p1, v1, |w|);
        var p2, v2 :| IsFirstMatch(g, p2, v2, w) && r2.value == Line(p2, v2, |w|);
        if (p1, v1) != (p2, v2) {
          BeforeTotal(p1, v1, p2, v2);
          assert false;
        }
      } else if r1.Some? || r2.Some? {
        assert false;
      }
    }
  }

  /**
   * A non-null search result spells the word: one cell per letter, each inside
   * the grid and holding that letter, consecutive cells one fixed direction apart.
   */
  lemma SearchReadsBack(g: array3?<char>, w: string, locs: seq<Position>)
    requires IsSearchResult(g, Some(w), Some(locs))
    ensures g != null && |w| > 0 && |locs| == |w|
    ensures forall i :: 0 <= i < |w| ==> InBounds(g, locs[i]) && GetCharAtPos(g, locs[i]) == w[i]
    ensures exists v :: IsDirection(v) && forall i :: 0 <= i < |w| - 1 ==> locs[i + 1] == Step(locs[i], v)
  {
    var p, v :| IsFirstMatch(g, p, v, w) && locs == Line(p, v, |w|);
    CheckLineReadsAlong(g, p, v, w);
    forall i | 0 <= i < |w| - 1
      ensures locs[i + 1] == Step(locs[i], v)
    {
      LineAtStep(p, v, i);
      LineAtStep(LineAt(p, v, i), v, 0);
    }
  }

  /**
   * The zero direction, which checkAt also tries, matches at a cell exactly the
   * words that repeat that cell's letter.
   */
  lemma {:induction false} ZeroVectorRepeats(g: array3<char>, p: Position, w: string)
    requires InBounds(g, p)
    ensures CheckLine(g, p, Zero, w) <==> forall i :: 0 <= i < |w| ==> w[i] == GetCharAtPos(g, p)
    decreases |w|
  {
    if |w| > 0 {
      var rest := w[1..];
      assert Step(p, Zero) == p;
      ZeroVectorRepeats(g, p, rest);
      assert forall i :: 1 <= i < |w| ==> w[i] == rest[i - 1];
    }
  }

  /** A grid without cells contains no word. */
  lemma SearchEmptyGrid(g: array3<char>, word: Option<string>, locs: Option<seq<Position>>)
    requires g.Length0 == 0 || g.Length1 == 0 || g.Length2 == 0
    requires IsSearchResult(g, word, locs)
    ensures locs.None?
  {
  }
}
