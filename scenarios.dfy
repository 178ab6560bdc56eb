/**
 * Concrete cases from test/WordSearchTester.java, proved from the contracts of
 * the solver and the generator (whatever the random draws are).
 */
module Scenarios {
  import opened Wrappers
  import opened Geometry
  import opened Solver
  import opened Generator

  /** The four cells of a 1x1x4 grid, read along the aisle axis from aisle 0, spell `w`. */
  predicate AisleSpells(g: array3<char>, w: string)
    requires HasShape(g, 1, 1, 4) && |w| == 4
    reads g
  {
    g[0, 0, 0] == w[0] && g[0, 0, 1] == w[1] && g[0, 0, 2] == w[2] && g[0, 0, 3] == w[3]
  }

  /** `w` backwards. */
  function Reverse4(w: string): (r: string)
    requires |w| == 4
    ensures |r| == 4 && forall k :: 0 <= k < 4 ==> r[k] == w[3 - k]
  {
    [w[3], w[2], w[1], w[0]]
  }

  /**
   * In a 1x1x4 grid, four letters whose first two differ, stored at p, p+v,
   * p+2v and p+3v, fill the grid forwards or backwards.
   */
  lemma FourCellsInOneByOneByFour(g: array3<char>, p: Position, v: Vector, w: string)
    requires HasShape(g, 1, 1, 4) && |w| == 4 && w[0] != w[1]
    requires InBounds(g, LineAt(p, v, 0)) && GetCharAtPos(g, LineAt(p, v, 0)) == w[0]
    requires InBounds(g, LineAt(p, v, 1)) && GetCharAtPos(g, LineAt(p, v, 1)) == w[1]
    requires InBounds(g, LineAt(p, v, 2)) && GetCharAtPos(g, LineAt(p, v, 2)) == w[2]
    requires InBounds(g, LineAt(p, v, 3)) && GetCharAtPos(g, LineAt(p, v, 3)) == w[3]
    ensures AisleSpells(g, w) || AisleSpells(g, Reverse4(w))
  {
  }

  /** A findable four-letter word in a 1x1x4 grid reads along the aisle axis, one way or the other. */
  lemma FourLetterWordInOneByOneByFour(g: array3<char>, w: string)
    requires HasShape(g, 1, 1, 4) && |w| == 4 && w[0] != w[1]
    requires Findable(g, Some(w))
    ensures AisleSpells(g, w) || AisleSpells(g, Reverse4(w))
  {
    var p, v :| InBounds(g, p) && IsDirection(v) && CheckLine(g, p, v, w);
    CheckLineReadsAlong(g, p, v, w);
    assert InBounds(g, LineAt(p, v, 0)) && GetCharAtPos(g, LineAt(p, v, 0)) == w[0];
    assert InBounds(g, LineAt(p, v, 1)) && GetCharAtPos(g, LineAt(p, v, 1)) == w[1];
    assert InBounds(g, LineAt(p, v, 2)) && GetCharAtPos(g, LineAt(p, v, 2)) == w[2];
    assert InBounds(g, LineAt(p, v, 3)) && GetCharAtPos(g, LineAt(p, v, 3)) == w[3];
    FourCellsInOneByOneByFour(g, p, v, w);
  }

  /** testMake1D: a successful make(["java"], 1, 1, 4) reads "java" forwards or backwards. */
  method MakeOneDimensional(letters: (int, int, int) -> int, draws: (nat, nat, nat) -> Draw)
    returns (grid: array3?<char>)
    requires forall r, c, a :: 0 <= letters(r, c, a) < 26
    ensures grid != null ==> HasShape(grid, 1, 1, 4)
    ensures grid != null ==> AisleSpells(grid, "java") || AisleSpells(grid, "avaj")
  {
    ghost var base, failed, last;
    assert Requested(Some([Some("java")])) == ["java"];
    grid, base, failed, last := Make(Some([Some("java")]), 1, 1, 4, letters, draws);
    if grid != null {
      assert Findable(grid, Some("java"));
      FourLetterWordInOneByOneByFour(grid, "java");
      assert Reverse4("java") == "avaj";
    }
  }

  /** testMakeImpossible: "test" cannot fit in a 1x1x1 grid, so make returns null. */
  method MakeTooSmall(letters: (int, int, int) -> int, draws: (nat, nat, nat) -> Draw)
    returns (grid: array3?<char>)
    requires forall r, c, a :: 0 <= letters(r, c, a) < 26
    ensures grid == null
  {
    ghost var base, failed, last;
    assert Requested(Some([Some("test")])) == ["test"];
    grid, base, failed, last := Make(Some([Some("test")]), 1, 1, 1, letters, draws);
  }

  /** testMakeInvalidSize: any negative size gives null. */
  method MakeNegativeSize(letters: (int, int, int) -> int, draws: (nat, nat, nat) -> Draw)
    returns (g1: array3?<char>, g2: array3?<char>, g3: array3?<char>, g4: array3?<char>)
    requires forall r, c, a :: 0 <= letters(r, c, a) < 26
    ensures g1 == null && g2 == null && g3 == null && g4 == null
  {
    ghost var base, failed, last;
    var words := Some([Some("a")]);
    g1, base, failed, last := Make(words, -1, 1, 1, letters, draws);
    g2, base, failed, last := Make(words, 1, -1, 1, letters, draws);
    g3, base, failed, last := Make(words, 1, 1, -1, letters, draws);
    g4, base, failed, last := Make(words, -1, -1, -1, letters, draws);
  }

  /** testMakeZeroSize: no words and size 0 give an empty grid; the word "a" gives null. */
  method MakeZeroSize(letters: (int, int, int) -> int, draws: (nat, nat, nat) -> Draw)
    returns (empty: array3?<char>, none: array3?<char>)
    requires forall r, c, a :: 0 <= letters(r, c, a) < 26
    ensures empty != null && empty.Length0 == 0
    ensures none == null
  {
    ghost var base, failed, last;
    empty, base, failed, last := Make(Some([]), 0, 0, 0, letters, draws);
    assert Requested(Some([Some("a")])) == ["a"];
    none, base, failed, last := Make(Some([Some("a")]), 0, 0, 0, letters, draws);
  }

  /**
   * testMakeInvalidWords, testMakeHasEmpty and testMakeHasNull: an empty list,
   * a null list, a list of empty words and a list of null words each give a
   * grid of the requested size holding only lower-case letters.
   */
  method MakeWithoutWords(letters: (int, int, int) -> int, draws: (nat, nat, nat) -> Draw)
    returns (g1: array3?<char>, g2: array3?<char>, g3: array3?<char>, g4: array3?<char>)
    requires forall r, c, a :: 0 <= letters(r, c, a) < 26
    ensures g1 != null && HasShape(g1, 10, 11, 12) && AllLowercase(g1)
    ensures g2 != null && HasShape(g2, 7, 8, 9) && AllLowercase(g2)
    ensures g3 != null && HasShape(g3, 6, 5, 4) && AllLowercase(g3)
    ensures g4 != null && HasShape(g4, 6, 5, 4) && AllLowercase(g4)
  {
    ghost var base, failed, last;
    g1, base, failed, last := Make(Some([]), 10, 11, 12, letters, draws);
    g2, base, failed, last := Make(None, 7, 8, 9, letters, draws);
    assert Requested(Some([Some(""), Some("")])) == [];
    g3, base, failed, last := Make(Some([Some(""), Some("")]), 6, 5, 4, letters, draws);
    assert Requested(Some([None, None])) == [];
    g4, base, failed, last := Make(Some([None, None]), 6, 5, 4, letters, draws);
  }

  /** testMakeHasEmpty and testMakeHasNull: a successful make finds "foo" and "bar", not "" or null. */
  method MakeSkipsInvalid(letters: (int, int, int) -> int, draws: (nat, nat, nat) -> Draw)
    returns (grid: array3?<char>, foo: Option<seq<Position>>, bar: Option<seq<Position>>,
             empty: Option<seq<Position>>, missing: Option<seq<Position>>)
    requires forall r, c, a :: 0 <= letters(r, c, a) < 26
    ensures grid != null ==> foo.Some? && bar.Some?
    ensures empty.None? && missing.None?
  {
    ghost var base, failed, last;
    var list := [Some("foo"), Some(""), None, Some("bar")];
    var words := Some(list);
    assert list[..1] == [Some("foo")] && list[..2][..1] == list[..1];
    assert list[..3][..2] == list[..2] && list[..3] == list[..2] + [None];
    assert ValidEntries(list[..2]) == ["foo"];
    assert ValidEntries(list[..3]) == ["foo"];
    assert Requested(words) == ["foo", "bar"];
    grid, base, failed, last := Make(words, 4, 5, 6, letters, draws);
    foo := Search(grid, Some("foo"));
    bar := Search(grid, Some("bar"));
    empty := Search(grid, Some(""));
    missing := Search(grid, None);
    if grid != null {
      assert Findable(grid, Some("foo")) && Findable(grid, Some("bar"));
      FoundIffFindable(grid, Some("foo"), foo);
      FoundIffFindable(grid, Some("bar"), bar);
    }
  }

  /** The 1x2x3 grid {{a,b,c},{d,f,e}} of testSearchSimple. */
  predicate IsSimpleGrid(g: array3<char>)
    reads g
  {
    HasShape(g, 1, 2, 3)
    && g[0, 0, 0] == 'a' && g[0, 0, 1] == 'b' && g[0, 0, 2] == 'c'
    && g[0, 1, 0] == 'd' && g[0, 1, 1] == 'f' && g[0, 1, 2] == 'e'
  }

  /** In that grid no candidate tried before (0,0,1) along (0,1,1) reads "be". */
  lemma SimpleGridNoEarlierMatch(g: array3<char>, q: Position, u: Vector, w: string)
    requires IsSimpleGrid(g) && InBounds(g, q) && IsDirection(u)
    requires Before(q, u, Position(0, 0, 1), Vector(0, 1, 1))
    requires |w| == 2 && w[0] == 'b' && w[1] == 'e'
    ensures !CheckLine(g, q, u, w)
  {
    var s := Step(q, u);
    assert w[1..][0] == 'e';
    if q.aisle == 0 {
      assert GetCharAtPos(g, q) != 'b';
    } else if InBounds(g, s) {
      assert q == Position(0, 0, 1) && u.x == 0;
      assert s.row == 0;
      if u.y == 0 {
        assert s.column == 0 && 0 <= s.aisle < 3;
        assert g[0, 0, 0] != 'e' && g[0, 0, 1] != 'e' && g[0, 0, 2] != 'e';
      } else {
        assert u.y == 1 && u.z < 1 && s.column == 1 && s.aisle < 2;
        assert g[0, 1, 0] != 'e' && g[0, 1, 1] != 'e';
      }
    }
  }

  /** A two-letter word whose letters sit at p and p+v reads from p along v. */
  lemma TwoLetterLine(g: array3<char>, w: string, p: Position, v: Vector)
    requires |w| == 2
    requires InBounds(g, p) && GetCharAtPos(g, p) == w[0]
    requires InBounds(g, Step(p, v)) && GetCharAtPos(g, Step(p, v)) == w[1]
    ensures CheckLine(g, p, v, w)
  {
    assert CheckLine(g, Step(p, v), v, w[1..]);
  }

  /** In that grid "be" reads from (0,0,1) along (0,1,1). */
  lemma SimpleGridMatch(g: array3<char>, w: string)
    requires IsSimpleGrid(g)
    requires |w| == 2 && w[0] == 'b' && w[1] == 'e'
    ensures CheckLine(g, Position(0, 0, 1), Vector(0, 1, 1), w)
  {
    assert g[0, 0, 1] == w[0] && g[0, 1, 2] == w[1];
    TwoLetterLine(g, w, Position(0, 0, 1), Vector(0, 1, 1));
  }

  /** In that grid "be" first reads from (0,0,1) along (0,1,1). */
  lemma SimpleGridFirstMatch(g: array3<char>, w: string)
    requires IsSimpleGrid(g)
    requires |w| == 2 && w[0] == 'b' && w[1] == 'e'
    ensures IsFirstMatch(g, Position(0, 0, 1), Vector(0, 1, 1), w)
  {
    SimpleGridMatch(g, w);
    forall q, u | InBounds(g, q) && IsDirection(u) && Before(q, u, Position(0, 0, 1), Vector(0, 1, 1))
      ensures !CheckLine(g, q, u, w)
    {
      SimpleGridNoEarlierMatch(g, q, u, w);
    }
  }

  /** testSearchSimple: "be" in the 1x2x3 grid {{a,b,c},{d,f,e}} is at (0,0,1), (0,1,2). */
  method SearchSimple() returns (locs: Option<seq<Position>>)
    ensures locs == Some([Position(0, 0, 1), Position(0, 1, 2)])
  {
    var g := new char[1, 2, 3];
    g[0, 0, 0], g[0, 0, 1], g[0, 0, 2] := 'a', 'b', 'c';
    g[0, 1, 0], g[0, 1, 1], g[0, 1, 2] := 'd', 'f', 'e';
    locs := Search(g, Some("be"));
    SimpleGridFirstMatch(g, "be");
    var p, v := Position(0, 0, 1), Vector(0, 1, 1);
    assert Line(p, v, 2) == [Position(0, 0, 1), Position(0, 1, 2)];
    SearchDeterministic(g, Some("be"), locs, Some(Line(p, v, 2)));
  }
}
