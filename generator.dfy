/**
 * The generator: make, makeRandom, getLongest, tryMake, tryWord, placeWord,
 * duplicateGrid and purgeInvalidWords of src/WordSearch3D.java. The random
 * source is replaced by choice parameters supplied by the caller.
 */
module Generator {
  import opened Wrappers
  import opened Geometry
  import opened Solver

  /** MAX_TRIES: the retry bound of tryWord and of make. */
  const MaxTries: nat := 100

  /** One outcome of Composite.randomize: a start cell and a direction. */
  datatype Draw = Draw(pos: Position, vec: Vector)

  /** The composite after `randomize` has overwritten its position and vector. */
  function Randomized(word: string, d: Draw): (c: Composite)
    ensures c.word == word
    ensures Line(c.pos, c.vec, |word|) == Line(d.pos, d.vec, |word|)
  {
    Composite(d.pos, d.vec, word)
  }

  predicate SameShape(a: array3<char>, b: array3<char>)
  {
    a.Length0 == b.Length0 && a.Length1 == b.Length1 && a.Length2 == b.Length2
  }

  predicate HasShape(a: array3<char>, sizeX: int, sizeY: int, sizeZ: int)
  {
    a.Length0 == sizeX && a.Length1 == sizeY && a.Length2 == sizeZ
  }

  /** Every cell of the word's line lies inside the grid. */
  predicate Fits(g: array3<char>, comp: Composite)
  {
    forall i :: 0 <= i < |comp.word| ==> InBounds(g, LineAt(comp.pos, comp.vec, i))
  }

  /**
   * The letter that the first `n` writes of placeWord leave in cell `q`: that of
   * the last i < n whose cell is q, or None when none of them is q.
   */
  function LastWrite(comp: Composite, n: nat, q: Position): Option<char>
    requires n <= |comp.word|
  {
    if n == 0 then None
    else if LineAt(comp.pos, comp.vec, n - 1) == q then Some(comp.word[n - 1])
    else LastWrite(comp, n - 1, q)
  }

  /** A cell's letter after an overwrite that may or may not touch it. */
  function Overlay(written: Option<char>, previous: char): char
  {
    match written
    case Some(c) => c
    case None => previous
  }

  /**
   * `r` is `g` with `comp.word` written along its line, letter by letter, later
   * letters overwriting earlier ones.
   */
  ghost predicate IsPlacement(r: array3<char>, g: array3<char>, comp: Composite)
    reads r, g
  {
    SameShape(r, g) && Fits(g, comp)
    && forall i, j, k :: 0 <= i < r.Length0 && 0 <= j < r.Length1 && 0 <= k < r.Length2 ==>
      r[i, j, k] == Overlay(LastWrite(comp, |comp.word|, Position(i, j, k)), g[i, j, k])
  }

  /** Along a non-zero vector, the cell of letter i ends up holding letter i. */
  lemma {:induction false} LastWriteOnLine(comp: Composite, n: nat, i: nat)
    requires comp.vec != Zero
    requires i < n <= |comp.word|
    ensures LastWrite(comp, n, LineAt(comp.pos, comp.vec, i)) == Some(comp.word[i])
    decreases n
  {
    if LineAt(comp.pos, comp.vec, n - 1) == LineAt(comp.pos, comp.vec, i) {
      LineAtInjective(comp.pos, comp.vec, n - 1, i);
    } else {
      LastWriteOnLine(comp, n - 1, i);
    }
  }

  /** A cell off the line is never written. */
  lemma {:induction false} LastWriteOffLine(comp: Composite, n: nat, q: Position)
    requires n <= |comp.word|
    requires forall i :: 0 <= i < n ==> LineAt(comp.pos, comp.vec, i) != q
    ensures LastWrite(comp, n, q) == None
    decreases n
  {
    if n > 0 {
      LastWriteOffLine(comp, n - 1, q);
    }
  }

  /** A written cell is on the line and holds one of the word's letters. */
  lemma {:induction false} LastWriteFromWord(comp: Composite, n: nat, q: Position)
    requires n <= |comp.word|
    requires LastWrite(comp, n, q).Some?
    ensures exists i ::
      0 <= i < n && LineAt(comp.pos, comp.vec, i) == q && LastWrite(comp, n, q).value == comp.word[i]
    decreases n
  {
    if LineAt(comp.pos, comp.vec, n - 1) != q {
      LastWriteFromWord(comp, n - 1, q);
    }
  }

  /** After a placement along a non-zero vector, the word reads from its anchor. */
  lemma PlacementReadsBack(r: array3<char>, g: array3<char>, comp: Composite)
    requires IsPlacement(r, g, comp)
    requires comp.vec != Zero
    ensures CheckLine(r, comp.pos, comp.vec, comp.word)
  {
    var w := comp.word;
    forall i | 0 <= i < |w|
      ensures InBounds(r, LineAt(comp.pos, comp.vec, i))
      ensures GetCharAtPos(r, LineAt(comp.pos, comp.vec, i)) == w[i]
    {
      var q := LineAt(comp.pos, comp.vec, i);
      LastWriteOnLine(comp, |w|, i);
      assert r[q.row, q.column, q.aisle] == Overlay(LastWrite(comp, |w|, q), g[q.row, q.column, q.aisle]);
    }
    CheckLineReadsAlong(r, comp.pos, comp.vec, w);
  }

  /** A placement leaves every cell off the word's line as it was. */
  lemma PlacementFrame(r: array3<char>, g: array3<char>, comp: Composite, q: Position)
    requires IsPlacement(r, g, comp)
    requires InBounds(g, q)
    requires forall i :: 0 <= i < |comp.word| ==> LineAt(comp.pos, comp.vec, i) != q
    ensures InBounds(r, q) && GetCharAtPos(r, q) == GetCharAtPos(g, q)
  {
    LastWriteOffLine(comp, |comp.word|, q);
    assert r[q.row, q.column, q.aisle] == Overlay(LastWrite(comp, |comp.word|, q), g[q.row, q.column, q.aisle]);
  }

  /** With the zero vector every letter lands on the anchor and the last one stays. */
  lemma PlacementZeroVector(r: array3<char>, g: array3<char>, comp: Composite, q: Position)
    requires IsPlacement(r, g, comp)
    requires comp.vec == Zero && |comp.word| > 0
    requires InBounds(g, q)
    ensures InBounds(r, q)
    ensures q == comp.pos ==> GetCharAtPos(r, q) == comp.word[|comp.word| - 1]
    ensures q != comp.pos ==> GetCharAtPos(r, q) == GetCharAtPos(g, q)
  {
    var n := |comp.word|;
    assert r[q.row, q.column, q.aisle] == Overlay(LastWrite(comp, n, q), g[q.row, q.column, q.aisle]);
    if q != comp.pos {
      forall i | 0 <= i < n
        ensures LineAt(comp.pos, comp.vec, i) != q
      {
        LineAtZero(comp.pos, i);
      }
      LastWriteOffLine(comp, n, q);
    }
  }

  /** Every cell of a placement holds either the old letter or a letter of the word. */
  lemma PlacementLetters(r: array3<char>, g: array3<char>, comp: Composite, q: Position)
    requires IsPlacement(r, g, comp)
    requires InBounds(g, q)
    ensures InBounds(r, q)
    ensures GetCharAtPos(r, q) == GetCharAtPos(g, q) || GetCharAtPos(r, q) in comp.word
  {
    var n := |comp.word|;
    assert r[q.row, q.column, q.aisle] == Overlay(LastWrite(comp, n, q), g[q.row, q.column, q.aisle]);
    if LastWrite(comp, n, q).Some? {
      LastWriteFromWord(comp, n, q);
    }
  }

  /** duplicateGrid: a fresh grid of the same shape holding the same letters. */
  method DuplicateGrid(g: array3<char>) returns (r: array3<char>)
    requires g.Length0 > 0 && g.Length1 > 0
    ensures fresh(r) && SameShape(r, g)
    ensures forall i, j, k :: 0 <= i < r.Length0 && 0 <= j < r.Length1 && 0 <= k < r.Length2 ==>
      r[i, j, k] == g[i, j, k]
  {
    r := new char[g.Length0, g.Length1, g.Length2];
    for a := 0 to r.Length0
      invariant forall i, j, k :: 0 <= i < a && 0 <= j < r.Length1 && 0 <= k < r.Length2 ==>
        r[i, j, k] == g[i, j, k]
    {
      for b := 0 to r.Length1
        invariant forall i, j, k ::
          0 <= i < r.Length0 && 0 <= j < r.Length1 && 0 <= k < r.Length2 && (i < a || (i == a && j < b))
          ==> r[i, j, k] == g[i, j, k]
      {
        for c := 0 to r.Length2
          invariant forall i, j, k ::
            0 <= i < r.Length0 && 0 <= j < r.Length1 && 0 <= k < r.Length2
            && (i < a || (i == a && (j < b || (j == b && k < c))))
            ==> r[i, j, k] == g[i, j, k]
        {
          r[a, b, c] := g[a, b, c];
        }
      }
    }
  }

  /**
   * placeWord: writes the word along its line into a copy of the grid, or
   * returns null as soon as a letter's cell falls outside the grid.
   */
  method PlaceWord(g: array3<char>, comp: Composite) returns (r: array3?<char>)
    requires g.Length0 > 0 && g.Length1 > 0
    ensures r == null <==> !Fits(g, comp)
    ensures r != null ==> fresh(r) && IsPlacement(r, g, comp)
  {
    var temp := DuplicateGrid(g);
    for i := 0 to |comp.word|
      invariant forall t :: 0 <= t < i ==> InBounds(g, LineAt(comp.pos, comp.vec, t))
      invariant forall a, b, c :: 0 <= a < temp.Length0 && 0 <= b < temp.Length1 && 0 <= c < temp.Length2 ==>
        temp[a, b, c] == Overlay(LastWrite(comp, i, Position(a, b, c)), g[a, b, c])
    {
      var row := comp.pos.row + comp.vec.x * i;
      var column := comp.pos.column + comp.vec.y * i;
      var aisle := comp.pos.aisle + comp.vec.z * i;
      if row < 0 || row >= temp.Length0
        || column < 0 || column >= temp.Length1
        || aisle < 0 || aisle >= temp.Length2
      {
        assert !InBounds(g, LineAt(comp.pos, comp.vec, i));
        return null;
      }
      temp[row, column, aisle] := comp.word[i];
    }
    return temp;
  }

  /** makeRandom's letter for a draw of nextInt(26). */
  function Letter(n: int): (c: char)
    requires 0 <= n < 26
    ensures 'a' <= c <= 'z'
  {
    ('a' as int + n) as char
  }

  /** Every cell holds a lower-case letter. */
  ghost predicate AllLowercase(g: array3<char>)
    reads g
  {
    forall i, j, k :: 0 <= i < g.Length0 && 0 <= j < g.Length1 && 0 <= k < g.Length2 ==>
      'a' <= g[i, j, k] <= 'z'
  }

  /**
   * makeRandom: a fresh grid of the requested size; `letters(r, c, a)` stands for
   * the nextInt(26) drawn for cell (r, c, a).
   */
  method MakeRandom(sizeX: int, sizeY: int, sizeZ: int, letters: (int, int, int) -> int) returns (grid: array3<char>)
    requires sizeX >= 0 && sizeY >= 0 && sizeZ >= 0
    requires forall r, c, a :: 0 <= letters(r, c, a) < 26
    ensures fresh(grid) && HasShape(grid, sizeX, sizeY, sizeZ) && AllLowercase(grid)
    ensures forall i, j, k :: 0 <= i < sizeX && 0 <= j < sizeY && 0 <= k < sizeZ ==>
      grid[i, j, k] == Letter(letters(i, j, k))
  {
    grid := new char[sizeX, sizeY, sizeZ];
    for r := 0 to sizeX
      invariant forall i, j, k :: 0 <= i < r && 0 <= j < sizeY && 0 <= k < sizeZ ==>
        grid[i, j, k] == Letter(letters(i, j, k))
    {
      for c := 0 to sizeY
        invariant forall i, j, k ::
          0 <= i < sizeX && 0 <= j < sizeY && 0 <= k < sizeZ && (i < r || (i == r && j < c))
          ==> grid[i, j, k] == Letter(letters(i, j, k))
      {
        for a := 0 to sizeZ
          invariant forall i, j, k ::
            0 <= i < sizeX && 0 <= j < sizeY && 0 <= k < sizeZ
            && (i < r || (i == r && (j < c || (j == c && k < a))))
            ==> grid[i, j, k] == Letter(letters(i, j, k))
        {
          grid[r, c, a] := Letter(letters(r, c, a));
        }
      }
    }
  }

  /** Every word of the list can be found in the grid. */
  ghost predicate AllFindable(g: array3?<char>, words: seq<string>)
    reads g
  {
    forall i :: 0 <= i < |words| ==> Findable(g, Some(words[i]))
  }

  /** The character is a letter of one of the words. */
  predicate InSomeWord(c: char, words: seq<string>)
  {
    exists n :: 0 <= n < |words| && c in words[n]
  }

  /** The list of words as Java references, none of them null. */
  function Present(words: seq<string>): (refs: seq<Option<string>>)
    ensures |refs| == |words|
    ensures forall i :: 0 <= i < |words| ==> refs[i] == Some(words[i])
  {
    seq(|words|, i requires 0 <= i < |words| => Some(words[i]))
  }

  /** hasAll on the words as Java references answers whether every word is findable. */
  lemma PresentFindable(g: array3?<char>, words: seq<string>)
    ensures (forall i :: 0 <= i < |Present(words)| ==> Findable(g, Present(words)[i])) <==> AllFindable(g, words)
  {
    var refs := Present(words);
    assert forall i :: 0 <= i < |words| ==> refs[i] == Some(words[i]);
  }

  /**
   * One attempt of tryWord: `cand` is what placeWord returned for `comp`, null
   * exactly when the word leaves the grid and otherwise the placement.
   */
  ghost predicate IsAttempt(cand: array3?<char>, g: array3<char>, comp: Composite)
    reads cand, g
  {
    (cand == null <==> !Fits(g, comp)) && (cand != null ==> IsPlacement(cand, g, comp))
  }

  /** tryWord accepts a candidate that exists and keeps every word of `upTo` findable. */
  ghost predicate Accepts(cand: array3?<char>, upTo: seq<string>)
    reads cand
  {
    cand != null && AllFindable(cand, upTo)
  }

  /**
   * What tryWord does with grid `g`: an empty word gives `g` back; otherwise
   * `tried[k]` is the attempt for draw k, every attempt but the last was
   * turned down, and `r` is the last attempt when that one was accepted and
   * null after MAX_TRIES attempts none of which was.
   */
  ghost predicate WordOutcome(g: array3<char>, word: string, upTo: seq<string>, draws: nat -> Draw,
                              tried: seq<array3?<char>>, r: array3?<char>)
    reads g, r, tried
  {
    if |word| == 0 then r == g && tried == []
    else
      && 0 < |tried| <= MaxTries
      && (forall k :: 0 <= k < |tried| ==> IsAttempt(tried[k], g, Randomized(word, draws(k))))
      && (forall k :: 0 <= k < |tried| - 1 ==> !Accepts(tried[k], upTo))
      && (r != null ==> r == tried[|tried| - 1] && Accepts(r, upTo))
      && (r == null ==> |tried| == MaxTries && !Accepts(tried[|tried| - 1], upTo))
  }

  /** Every attempt of `tried` is the one for its draw, and tryWord turned each down. */
  ghost predicate TurnedDown(g: array3<char>, word: string, upTo: seq<string>, draws: nat -> Draw,
                             tried: seq<array3?<char>>)
    reads g, tried
  {
    forall k :: 0 <= k < |tried| ==> IsAttempt(tried[k], g, Randomized(word, draws(k))) && !Accepts(tried[k], upTo)
  }

  /**
   * One more attempt of tryWord: accepted, it ends tryWord with that grid;
   * turned down, it joins the attempts turned down, and after MAX_TRIES of
   * them tryWord ends with null.
   */
  lemma AttemptMade(g: array3<char>, word: string, upTo: seq<string>, draws: nat -> Draw,
                    tried: seq<array3?<char>>, cand: array3?<char>)
    requires |word| > 0 && |tried| < MaxTries
    requires TurnedDown(g, word, upTo, draws, tried)
    requires IsAttempt(cand, g, Randomized(word, draws(|tried|)))
    ensures Accepts(cand, upTo) ==> WordOutcome(g, word, upTo, draws, tried + [cand], cand)
    ensures !Accepts(cand, upTo) ==> TurnedDown(g, word, upTo, draws, tried + [cand])
    ensures !Accepts(cand, upTo) && |tried| + 1 == MaxTries ==> WordOutcome(g, word, upTo, draws, tried + [cand], null)
  {
    var all := tried + [cand];
    assert forall k :: 0 <= k < |tried| ==> all[k] == tried[k];
  }

  /**
   * tryWord: up to MAX_TRIES times, randomizes the composite with the next draw,
   * places the word, and accepts the candidate grid when every word of `upTo`
   * is still found in it. An empty word returns the grid itself. `tried` holds
   * the candidates in the order they were made.
   */
  method TryWord(g: array3<char>, word: string, upTo: seq<string>, draws: nat -> Draw)
    returns (r: array3?<char>, ghost tried: seq<array3?<char>>)
    requires |word| > 0 ==> g.Length0 > 0 && g.Length1 > 0 && g.Length2 > 0
    ensures WordOutcome(g, word, upTo, draws, tried, r)
    ensures r != null && |word| > 0 ==> fresh(r) && SameShape(r, g) && AllFindable(r, upTo)
  {
    tried := [];
    if |word| == 0 {
      return g, tried;
    }
    var comp := Unplaced(word);
    for i := 0 to MaxTries
      invariant comp.word == word && |tried| == i
      invariant TurnedDown(g, word, upTo, draws, tried)
    {
      comp := Randomized(comp.word, draws(i));
      var temp := PlaceWord(g, comp);
      var found := false;
      if temp != null {
        found := HasAll(temp, Present(upTo));
        PresentFindable(temp, upTo);
      }
      AttemptMade(g, word, upTo, draws, tried, temp);
      tried := tried + [temp];
      if found {
        return temp, tried;
      }
    }
    return null, tried;
  }

  /** `a` and `b` have the same shape and the same letters. */
  ghost predicate SameGrid(a: array3<char>, b: array3<char>)
    reads a, b
  {
    SameShape(a, b)
    && forall i, j, k :: 0 <= i < a.Length0 && 0 <= j < a.Length1 && 0 <= k < a.Length2 ==>
      a[i, j, k] == b[i, j, k]
  }

  /** The draws made while inserting word j of tryMake's list: `draws(j, ·)`. */
  function WordDraws(draws: (nat, nat) -> Draw, j: nat): nat -> Draw
  {
    (t: nat) => draws(j, t)
  }

  /**
   * A run of tryMake: `stages[j]` is the grid before word j is inserted, and
   * `trials[j]` holds the attempts tryWord made for word j.
   */
  datatype Run = Run(stages: seq<array3<char>>, trials: seq<seq<array3?<char>>>)

  /** The grids a run mentions. */
  ghost function Objects(run: Run): set<object?>
  {
    (set j | 0 <= j < |run.stages| :: run.stages[j] as object?)
    + (set j, k | 0 <= j < |run.trials| && 0 <= k < |run.trials[j]| :: run.trials[j][k] as object?)
  }

  /**
   * The first |stages| - 1 insertions of tryMake: stage 0 is a copy of `g`,
   * and each stage is what tryWord made of the previous one with word j, the
   * words up to j, and the draws `draws(j, ·)`.
   */
  ghost predicate Chain(g: array3<char>, words: seq<string>, draws: (nat, nat) -> Draw, run: Run)
    reads g, Objects(run)
  {
    && 0 < |run.stages| <= |words| + 1
    && |run.trials| >= |run.stages| - 1
    && SameGrid(run.stages[0], g)
    && forall j :: 0 <= j < |run.stages| - 1 ==>
      WordOutcome(run.stages[j], words[j], words[..j + 1], WordDraws(draws, j), run.trials[j], run.stages[j + 1])
  }

  /**
   * tryMake ended with `r`: either every word was inserted and `r` is the last
   * stage, or the word after the last stage could not be inserted and `r` is null.
   */
  ghost predicate IsRun(g: array3<char>, words: seq<string>, draws: (nat, nat) -> Draw, run: Run, r: array3?<char>)
    reads g, r, Objects(run)
  {
    && Chain(g, words, draws, run)
    && var n := |run.stages| - 1;
    && (r != null ==> n == |words| && |run.trials| == n && r == run.stages[n])
    && (r == null ==>
          && n < |words| && |run.trials| == n + 1
          && WordOutcome(run.stages[n], words[n], words[..n + 1], WordDraws(draws, n), run.trials[n], null))
  }

  /** One more insertion extends a chain. */
  lemma ChainExtend(g: array3<char>, words: seq<string>, draws: (nat, nat) -> Draw, run: Run,
                    tried: seq<array3?<char>>, next: array3<char>)
    requires Chain(g, words, draws, run) && |run.trials| == |run.stages| - 1
    requires |run.stages| <= |words|
    requires WordOutcome(run.stages[|run.stages| - 1], words[|run.stages| - 1], words[..|run.stages|],
      WordDraws(draws, |run.stages| - 1), tried, next)
    ensures Chain(g, words, draws, Run(run.stages + [next], run.trials + [tried]))
  {
    var ext := Run(run.stages + [next], run.trials + [tried]);
    forall j | 0 <= j < |ext.stages| - 1
      ensures WordOutcome(ext.stages[j], words[j], words[..j + 1], WordDraws(draws, j), ext.trials[j], ext.stages[j + 1])
    {
      if j < |run.stages| - 1 {
        assert ext.stages[j] == run.stages[j] && ext.stages[j + 1] == run.stages[j + 1] && ext.trials[j] == run.trials[j];
      }
    }
  }

  /** Inserting word i keeps every cell at its base letter or a letter of some word. */
  lemma InsertionLetters(g: array3<char>, words: seq<string>, i: nat, temp: array3<char>, next: array3<char>, comp: Composite)
    requires i < |words| && comp.word == words[i]
    requires SameShape(temp, g) && IsPlacement(next, temp, comp)
    requires forall a, b, c :: 0 <= a < g.Length0 && 0 <= b < g.Length1 && 0 <= c < g.Length2 ==>
      temp[a, b, c] == g[a, b, c] || InSomeWord(temp[a, b, c], words)
    ensures forall a, b, c :: 0 <= a < g.Length0 && 0 <= b < g.Length1 && 0 <= c < g.Length2 ==>
      next[a, b, c] == g[a, b, c] || InSomeWord(next[a, b, c], words)
  {
    forall a, b, c | 0 <= a < g.Length0 && 0 <= b < g.Length1 && 0 <= c < g.Length2
      ensures next[a, b, c] == g[a, b, c] || InSomeWord(next[a, b, c], words)
    {
      PlacementLetters(next, temp, comp, Position(a, b, c));
      assert next[a, b, c] == temp[a, b, c] || next[a, b, c] in words[i];
    }
  }

  /** A chain through every word is a run that returns its last stage. */
  lemma ChainCompletes(g: array3<char>, words: seq<string>, draws: (nat, nat) -> Draw, run: Run)
    requires Chain(g, words, draws, run)
    requires |run.stages| == |words| + 1 && |run.trials| == |words|
    ensures IsRun(g, words, draws, run, run.stages[|words|])
  {
  }

  /** A chain whose next insertion fails is a run that returns null. */
  lemma ChainStops(g: array3<char>, words: seq<string>, draws: (nat, nat) -> Draw, run: Run, tried: seq<array3?<char>>)
    requires Chain(g, words, draws, run) && |run.trials| == |run.stages| - 1
    requires |run.stages| <= |words|
    requires WordOutcome(run.stages[|run.stages| - 1], words[|run.stages| - 1], words[..|run.stages|],
      WordDraws(draws, |run.stages| - 1), tried, null)
    ensures IsRun(g, words, draws, Run(run.stages, run.trials + [tried]), null)
  {
    var ext := Run(run.stages, run.trials + [tried]);
    assert forall j :: 0 <= j < |run.trials| ==> ext.trials[j] == run.trials[j];
  }

  /**
   * tryMake after inserting words 0..i-1: `run` is the chain so far, its last
   * stage is `temp`, of the base grid's shape.
   */
  ghost predicate Progress(g: array3<char>, words: seq<string>, draws: (nat, nat) -> Draw, run: Run,
                           temp: array3<char>, i: nat)
    reads g, temp, Objects(run)
  {
    && i <= |words|
    && |run.stages| == i + 1 && |run.trials| == i && run.stages[i] == temp
    && Chain(g, words, draws, run)
    && SameShape(temp, g)
  }

  /** Inserting word i into the last stage carries tryMake's progress to i + 1. */
  lemma ProgressStep(g: array3<char>, words: seq<string>, draws: (nat, nat) -> Draw, run: Run,
                     temp: array3<char>, i: nat, tried: seq<array3?<char>>, next: array3<char>)
    requires i < |words| && Progress(g, words, draws, run, temp, i)
    requires WordOutcome(temp, words[i], words[..i + 1], WordDraws(draws, i), tried, next)
    ensures words[i] == [] ==> next == temp
    ensures Progress(g, words, draws, Run(run.stages + [next], run.trials + [tried]), next, i + 1)
  {
    ChainExtend(g, words, draws, run, tried, next);
    if words[i] != [] {
      assert IsPlacement(next, temp, Randomized(words[i], draws(i, |tried| - 1)));
    }
  }

  /** A failed insertion of word i ends tryMake's run with null. */
  lemma ProgressStop(g: array3<char>, words: seq<string>, draws: (nat, nat) -> Draw, run: Run,
                     temp: array3<char>, i: nat, tried: seq<array3?<char>>)
    requires i < |words| && Progress(g, words, draws, run, temp, i)
    requires WordOutcome(temp, words[i], words[..i + 1], WordDraws(draws, i), tried, null)
    ensures IsRun(g, words, draws, Run(run.stages, run.trials + [tried]), null)
  {
    ChainStops(g, words, draws, run, tried);
  }

  /**
   * Stage m of a chain has the base grid's shape, holds every non-empty word
   * before m, and each of its cells keeps the base letter or holds a letter
   * of some word.
   */
  lemma {:induction false} StageBuilt(g: array3<char>, words: seq<string>, draws: (nat, nat) -> Draw, run: Run, m: nat)
    requires Chain(g, words, draws, run) && m < |run.stages|
    ensures SameShape(run.stages[m], g)
    ensures forall j :: 0 <= j < m && words[j] != [] ==> Findable(run.stages[m], Some(words[j]))
    ensures forall a, b, c :: 0 <= a < g.Length0 && 0 <= b < g.Length1 && 0 <= c < g.Length2 ==>
      run.stages[m][a, b, c] == g[a, b, c] || InSomeWord(run.stages[m][a, b, c], words)
  {
    if m > 0 {
      var j := m - 1;
      StageBuilt(g, words, draws, run, j);
      var prev, cur, tried := run.stages[j], run.stages[m], run.trials[j];
      assert WordOutcome(prev, words[j], words[..m], WordDraws(draws, j), tried, cur);
      if words[j] != [] {
        var comp := Randomized(words[j], draws(j, |tried| - 1));
        assert IsPlacement(cur, prev, comp);
        forall k | 0 <= k < m && words[k] != []
          ensures Findable(cur, Some(words[k]))
        {
          assert words[..m][k] == words[k];
        }
        InsertionLetters(g, words, j, prev, cur, comp);
      }
    }
  }

  /**
   * `r`, of the base grid's shape, holds every non-empty word of the list, and
   * each of its cells keeps the base letter or holds a letter of some word.
   */
  ghost predicate Built(r: array3<char>, g: array3<char>, words: seq<string>)
    reads r, g
  {
    && SameShape(r, g)
    && (forall i :: 0 <= i < |words| && words[i] != [] ==> Findable(r, Some(words[i])))
    && forall a, b, c :: 0 <= a < g.Length0 && 0 <= b < g.Length1 && 0 <= c < g.Length2 ==>
      r[a, b, c] == g[a, b, c] || InSomeWord(r[a, b, c], words)
  }

  /** The grid a run of tryMake returns is built from `g` with all the words. */
  lemma RunBuilt(g: array3<char>, words: seq<string>, draws: (nat, nat) -> Draw, run: Run, r: array3<char>)
    requires IsRun(g, words, draws, run, r)
    ensures Built(r, g, words)
  {
    StageBuilt(g, words, draws, run, |words|);
  }

  /**
   * tryMake: copies the base grid and inserts the words one by one in list
   * order; the insertion of word i must keep words 0..i findable.
   * `draws(i, t)` is the t-th draw made while inserting word i, and `run`
   * records the grids passed from one word to the next.
   */
  method TryMake(g: array3<char>, words: seq<string>, draws: (nat, nat) -> Draw)
    returns (r: array3?<char>, ghost run: Run)
    requires g.Length0 > 0 && g.Length1 > 0
    requires (forall i :: 0 <= i < |words| ==> words[i] == []) || g.Length2 > 0
    ensures IsRun(g, words, draws, run, r)
    ensures r != null ==> fresh(r)
  {
    var temp := DuplicateGrid(g);
    run := Run([temp], []);
    for i := 0 to |words|
      invariant fresh(temp) && Progress(g, words, draws, run, temp, i)
    {
      var next;
      ghost var tried;
      next, tried := TryWord(temp, words[i], words[..i + 1], WordDraws(draws, i));
      if next == null {
        ProgressStop(g, words, draws, run, temp, i, tried);
        run := Run(run.stages, run.trials + [tried]);
        return null, run;
      }
      ProgressStep(g, words, draws, run, temp, i, tried, next);
      run := Run(run.stages + [next], run.trials + [tried]);
      temp := next;
    }
    ChainCompletes(g, words, draws, run);
    return temp, run;
  }

  /** The entries of a Java word list that are neither null nor empty, in order. */
  function ValidEntries(words: seq<Option<string>>): (valid: seq<string>)
    ensures |valid| <= |words|
    ensures forall i :: 0 <= i < |valid| ==> |valid[i]| > 0
  {
    if words == [] then []
    else
      var last := words[|words| - 1];
      ValidEntries(words[..|words| - 1]) + (if last.Some? && |last.value| > 0 then [last.value] else [])
  }

  /** Sanitising a concatenation sanitises each part: the filter keeps the order. */
  lemma {:induction false} ValidEntriesAppend(a: seq<Option<string>>, b: seq<Option<string>>)
    ensures ValidEntries(a + b) == ValidEntries(a) + ValidEntries(b)
    decreases |b|
  {
    if b == [] {
      assert a + b == a;
    } else {
      var b' := b[..|b| - 1];
      assert (a + b)[..|a + b| - 1] == a + b';
      assert (a + b)[|a + b| - 1] == b[|b| - 1];
      ValidEntriesAppend(a, b');
    }
  }

  /** A word survives sanitising exactly when it is non-empty and present in the list. */
  lemma {:induction false} ValidEntriesMembers(words: seq<Option<string>>, w: string)
    ensures w in ValidEntries(words) <==> |w| > 0 && Some(w) in words
    decreases |words|
  {
    if words != [] {
      var init := words[..|words| - 1];
      ValidEntriesMembers(init, w);
      assert words == init + [words[|words| - 1]];
    }
  }

  /**
   * purgeInvalidWords: null for a null list, otherwise the non-null, non-empty
   * entries in their original order.
   */
  method PurgeInvalidWords(words: Option<seq<Option<string>>>) returns (valid: Option<seq<string>>)
    ensures words.None? ==> valid.None?
    ensures words.Some? ==> valid == Some(ValidEntries(words.value))
  {
    if words.None? {
      return None;
    }
    var ws := words.value;
    var list: seq<string> := [];
    for i := 0 to |ws|
      invariant list == ValidEntries(ws[..i])
    {
      var word := ws[i];
      assert ws[..i + 1][..i] == ws[..i];
      if word.Some? && |word.value| > 0 {
        list := list + [word.value];
      }
    }
    assert ws[..|ws|] == ws;
    return Some(list);
  }

  /** The length of the longest word of a non-empty list. */
  function Longest(words: seq<string>): (n: nat)
    requires |words| > 0
    ensures forall i :: 0 <= i < |words| ==> |words[i]| <= n
    ensures exists i :: 0 <= i < |words| && |words[i]| == n
  {
    if |words| == 1 then |words[0]|
    else
      var m := Longest(words[..|words| - 1]);
      if |words[|words| - 1]| > m then |words[|words| - 1]| else m
  }

  /** getLongest: the length of the longest word, scanning from the first. */
  method GetLongest(words: seq<string>) returns (max: nat)
    requires |words| > 0
    ensures max == Longest(words)
  {
    max := |words[0]|;
    for i := 0 to |words|
      invariant if i == 0 then max == |words[0]| else max == Longest(words[..i])
    {
      assert i > 0 ==> words[..i + 1][..i] == words[..i];
      if |words[i]| > max {
        max := |words[i]|;
      }
    }
    assert words[..|words|] == words;
  }

  function Max3(a: int, b: int, c: int): (m: int)
    ensures m >= a && m >= b && m >= c && (m == a || m == b || m == c)
  {
    if a >= b && a >= c then a else if b >= c then b else c
  }

  /** The words make is asked to embed: the sanitised list, empty when it is null. */
  function Requested(words: Option<seq<Option<string>>>): seq<string>
  {
    match words
    case None => []
    case Some(ws) => ValidEntries(ws)
  }

  /** make passes its guards and goes on to place words in a random base grid. */
  predicate ReachesPlacement(words: Option<seq<Option<string>>>, sizeX: int, sizeY: int, sizeZ: int)
  {
    var valid := Requested(words);
    sizeX >= 0 && sizeY >= 0 && sizeZ >= 0 && |valid| > 0 && Longest(valid) <= Max3(sizeX, sizeY, sizeZ)
  }

  /** The draws of make's attempt t: `draws(t, ·, ·)`. */
  function AttemptDraws(draws: (nat, nat, nat) -> Draw, t: nat): (nat, nat) -> Draw
  {
    (i: nat, k: nat) => draws(t, i, k)
  }

  /** Attempt t of make ran tryMake on `g` with the draws `draws(t, ·, ·)`, as `run`, and ended with `r`. */
  ghost predicate MakeAttempt(g: array3<char>, words: seq<string>, draws: (nat, nat, nat) -> Draw, t: nat,
                              run: Run, r: array3?<char>)
    reads g, r, Objects(run)
  {
    IsRun(g, words, AttemptDraws(draws, t), run, r)
  }

  /** Every attempt t < |runs| of make ran as `runs[t]` and ended with null. */
  ghost predicate AllFailed(g: array3<char>, words: seq<string>, draws: (nat, nat, nat) -> Draw, runs: seq<Run>)
    reads g, set t, o | 0 <= t < |runs| && o in Objects(runs[t]) :: o
  {
    forall t :: 0 <= t < |runs| ==> MakeAttempt(g, words, draws, t, runs[t], null)
  }

  /** One more failed attempt extends make's record of failed attempts. */
  lemma AllFailedExtend(g: array3<char>, words: seq<string>, draws: (nat, nat, nat) -> Draw, runs: seq<Run>, run: Run)
    requires AllFailed(g, words, draws, runs)
    requires MakeAttempt(g, words, draws, |runs|, run, null)
    ensures AllFailed(g, words, draws, runs + [run])
  {
    var all := runs + [run];
    forall t | 0 <= t < |all|
      ensures MakeAttempt(g, words, draws, t, all[t], null)
    {
      if t < |runs| {
        assert all[t] == runs[t];
      }
    }
  }

  /** Over a lower-case base, a cell that keeps its base letter or holds a word's letter is one or the other. */
  lemma LettersOverLowercase(base: array3<char>, grid: array3<char>, words: seq<string>)
    requires AllLowercase(base) && SameShape(grid, base)
    requires forall a, b, c :: 0 <= a < base.Length0 && 0 <= b < base.Length1 && 0 <= c < base.Length2 ==>
      grid[a, b, c] == base[a, b, c] || InSomeWord(grid[a, b, c], words)
    ensures forall a, b, c :: 0 <= a < grid.Length0 && 0 <= b < grid.Length1 && 0 <= c < grid.Length2 ==>
      'a' <= grid[a, b, c] <= 'z' || InSomeWord(grid[a, b, c], words)
  {
  }

  /**
   * make's retry loop: calls tryMake on the same base grid up to MAX_TRIES
   * times, attempt t with the draws `draws(t, ·, ·)`, and returns the first
   * grid it builds. `failed` records the attempts that returned null and
   * `last` the one that succeeded.
   */
  method Retry(base: array3<char>, valid: seq<string>, draws: (nat, nat, nat) -> Draw)
    returns (grid: array3?<char>, ghost failed: seq<Run>, ghost last: Run)
    requires base.Length0 > 0 && base.Length1 > 0 && base.Length2 > 0
    ensures |failed| <= MaxTries && AllFailed(base, valid, draws, failed)
    ensures grid == null ==> |failed| == MaxTries
    ensures grid != null ==> |failed| < MaxTries && MakeAttempt(base, valid, draws, |failed|, last, grid)
    ensures grid != null ==> fresh(grid)
  {
    failed := [];
    last := Run([], []);
    for t := 0 to MaxTries
      invariant |failed| == t
      invariant AllFailed(base, valid, draws, failed)
      invariant forall u, o :: 0 <= u < |failed| && o in Objects(failed[u]) ==> allocated(o)
    {
      var temp;
      ghost var run;
      temp, run := TryMake(base, valid, AttemptDraws(draws, t));
      if temp != null {
        return temp, failed, run;
      }
      AllFailedExtend(base, valid, draws, failed, run);
      failed := failed + [run];
    }
    return null, failed, last;
  }

  /**
   * make: rejects a negative size, returns a random grid when no valid word is
   * requested, rejects a longest word that exceeds every dimension, and
   * otherwise retries tryMake on one random base grid up to MAX_TRIES times.
   * `letters` stands for the draws of makeRandom, `draws(t, i, k)` for the k-th
   * draw made for word i in attempt t. `base` is the random base grid,
   * `failed[t]` the run of attempt t when it returned null, and `last` the run
   * of the attempt that built the grid.
   */
  method Make(words: Option<seq<Option<string>>>, sizeX: int, sizeY: int, sizeZ: int,
              letters: (int, int, int) -> int, draws: (nat, nat, nat) -> Draw)
    returns (grid: array3?<char>, ghost base: array3?<char>, ghost failed: seq<Run>, ghost last: Run)
    requires forall r, c, a :: 0 <= letters(r, c, a) < 26
    requires ReachesPlacement(words, sizeX, sizeY, sizeZ) ==> sizeX > 0 && sizeY > 0 && sizeZ > 0
    ensures sizeX < 0 || sizeY < 0 || sizeZ < 0 ==> grid == null
    ensures sizeX >= 0 && sizeY >= 0 && sizeZ >= 0 && Requested(words) == [] ==>
      && grid != null && HasShape(grid, sizeX, sizeY, sizeZ) && AllLowercase(grid)
      && forall i, j, k :: 0 <= i < sizeX && 0 <= j < sizeY && 0 <= k < sizeZ ==>
           grid[i, j, k] == Letter(letters(i, j, k))
    ensures |Requested(words)| > 0 && Longest(Requested(words)) > Max3(sizeX, sizeY, sizeZ) ==> grid == null
    ensures grid != null ==> fresh(grid) && HasShape(grid, sizeX, sizeY, sizeZ)
    ensures grid != null ==> AllFindable(grid, Requested(words))
    ensures grid != null ==> forall i, j, k :: 0 <= i < grid.Length0 && 0 <= j < grid.Length1 && 0 <= k < grid.Length2 ==>
      'a' <= grid[i, j, k] <= 'z' || InSomeWord(grid[i, j, k], Requested(words))
    ensures ReachesPlacement(words, sizeX, sizeY, sizeZ) ==>
      && base != null && HasShape(base, sizeX, sizeY, sizeZ) && AllLowercase(base)
      && (forall i, j, k :: 0 <= i < sizeX && 0 <= j < sizeY && 0 <= k < sizeZ ==>
            base[i, j, k] == Letter(letters(i, j, k)))
      && |failed| <= MaxTries && AllFailed(base, Requested(words), draws, failed)
    ensures ReachesPlacement(words, sizeX, sizeY, sizeZ) && grid == null ==> |failed| == MaxTries
    ensures ReachesPlacement(words, sizeX, sizeY, sizeZ) && grid != null ==>
      && base != null && |failed| < MaxTries
      && MakeAttempt(base, Requested(words), draws, |failed|, last, grid)
  {
    base := null;
    failed := [];
    last := Run([], []);
    var validWords := PurgeInvalidWords(words);
    if sizeX < 0 || sizeY < 0 || sizeZ < 0 {
      assert !ReachesPlacement(words, sizeX, sizeY, sizeZ);
      return null, base, failed, last;
    } else if validWords.None? || |validWords.value| == 0 {
      assert !ReachesPlacement(words, sizeX, sizeY, sizeZ);
      grid := MakeRandom(sizeX, sizeY, sizeZ, letters);
      return grid, base, failed, last;
    }
    var valid := validWords.value;
    var longest := GetLongest(valid);
    if longest > Max3(sizeX, sizeY, sizeZ) {
      assert !ReachesPlacement(words, sizeX, sizeY, sizeZ);
      return null, base, failed, last;
    }
    assert Requested(words) == valid && ReachesPlacement(words, sizeX, sizeY, sizeZ);
    var randomGrid := MakeRandom(sizeX, sizeY, sizeZ, letters);
    base := randomGrid;
    grid, failed, last := Retry(randomGrid, valid, draws);
    if grid != null {
      RunBuilt(randomGrid, valid, AttemptDraws(draws, |failed|), last, grid);
      LettersOverLowercase(randomGrid, grid, valid);
    }
  }
}
