# WordSearch3D in Dafny

A model of `WordSearch3D`, a generator and solver for three-dimensional
word-search puzzles. A puzzle is a rectangular grid of characters indexed by
(row, column, aisle). A word is hidden along a straight line: a start cell plus
a direction triple whose components are each -1, 0 or 1.

The model has five modules.

- `Wrappers` (`wrappers.dfy`): `Option`, which stands for a Java reference that may be `null`.
- `Geometry` (`geometry.dfy`): the value types.
  - `Position` and `Vector` are the source's small classes.
  - `Composite` is a word anchored at a cell in a direction.
  - `Step` is the `Position(Position, Vector)` constructor.
  - `LineAt(p, v, i)` is the cell `p + i*v` of letter `i`.
  - The module also fixes the order in which the solver tries cells and directions.
- `Solver` (`solver.dfy`): `checkLine`, `checkAt`, `search`, `getCharPositions`, `searchForAll` and `hasAll`.
  - `CheckLine` is the source's recursive predicate. It is proved equal to a closed-form reading of the line, `ReadsAlong`.
  - The scanning methods keep the source's nested loops with early return.
  - `Search` and `SearchForAll` are proved against the ghost predicate `IsSearchResult`: the cells of the first (cell, direction) candidate in scan order whose line spells the word, or `None` when there is none.
  - `CheckAt` is proved against `CheckLine` and the direction order `DirBefore`: it returns the first of the 27 directions along which the word reads from the cell.
- `Generator` (`generator.dfy`): `make`, `makeRandom`, `getLongest`, `tryMake`, `tryWord`, `placeWord`, `duplicateGrid` and `purgeInvalidWords`.
  - The random source becomes parameters. `letters(r, c, a)` is the `nextInt(26)` drawn for a cell. `draws` gives the (position, vector) pairs that `Composite.randomize` would produce.
  - Every success property holds whatever these choices are.
  - Each retry method is tied to what it did, not only to what it returns:
    - `TryWord` returns the first accepted attempt, or `null` after MAX_TRIES rejected attempts. `WordOutcome` relates the attempts, recorded in the ghost result `tried`, to the input grid and the draws.
    - `TryMake` records its work in a ghost `Run`: `stages[0]` is a copy of the base grid, and each later stage is the `WordOutcome` of the one before it for the next word, with `draws(j, ·)`. A non-null result is the last stage. `null` means the word after the last stage ran out of attempts on that stage.
    - `StageBuilt` then derives the success properties from the run. Every stage has the base grid's shape and holds every earlier non-empty word. Each of its cells keeps the base letter or holds a letter of some word.
    - `Make`'s retry loop, `Retry`, returns the runs of the failed attempts and of the one that succeeded. Each is a run of `tryMake` on the same random base grid with `draws(t, ·, ·)`.
  - `placeWord` is specified by `IsPlacement`: the input grid overlaid with the word's letters, where a later letter overwrites an earlier one on the same cell.
- `Scenarios` (`scenarios.dfy`): cases from `test/WordSearchTester.java`, proved from the contracts above for every possible random choice.

Grids are `array3<char>`; a `null` grid is `array3?<char>`. The Java code
assumes a rectangular grid: it bounds-checks against `grid[0].length` and
`grid[0][0].length`. A Dafny multi-dimensional array is rectangular by
construction. Coordinates are unbounded `int`, and Java `int[][]` coordinate
lists are `seq<Position>`.

The zero vector `(0,0,0)` stays in both direction sets, as in the code.
`checkAt` enumerates all 27 triples, and `Vector.randomize` can draw the zero
vector. `ZeroVectorRepeats` states what this means: at a cell holding `c`, the zero direction matches exactly the words made
only of `c`. `PlacementZeroVector` states the other half: placing along the
zero vector leaves the word's last letter on the anchor cell.

## Model

| member | source | states |
|---|---|---|
| Geometry.Unplaced | src/WordSearch3D.java:84-88 | The `Composite(String)` constructor keeps the word and puts every letter's cell on the origin, as the default `Position` and `Vector` give |
| Geometry.LineAtStep | src/WordSearch3D.java:28-32 | One `Position(Position, Vector)` step from letter i's cell `p + i*v` reaches letter i+1's cell; letter 0 sits on the anchor |
| Geometry.LineAtInjective | src/WordSearch3D.java:329-332 | Along a non-zero vector, distinct letter indices give distinct cells, so placeWord never overwrites its own letters |
| Geometry.BeforeTotal | src/WordSearch3D.java:127-151 | Any two distinct (cell, direction) candidates are ordered by the scan: cells by row, column, aisle, then directions by x, y, z from -1 |
| Solver.GetCharAtPos | src/WordSearch3D.java:189-191 | The array read at the position's row, column and aisle; its requires restricts it to cells inside the grid. It has no ensures of its own: the contracts of CheckLine, ReadsAlong and the placement lemmas state what is read through it |
| Solver.CheckLine | src/WordSearch3D.java:166-181 | A match of a non-empty word puts its first letter on the start cell, and every letter's cell `pos + i*vec` lies in the grid |
| Solver.CheckLineReadsAlong | src/WordSearch3D.java:166-181 | checkLine is true iff every letter i lies in the grid at `pos + i*vec` and equals the cell there; the empty word is accepted without any bounds check |
| Solver.ZeroVectorRepeats | src/WordSearch3D.java:147-151 | With the zero direction that checkAt also tries, a word matches at a cell iff every letter equals that cell's letter |
| Solver.GetCharPositions | src/WordSearch3D.java:198-213 | Returns one coordinate per letter, the i-th being `start + i*vec` |
| Solver.CheckAt | src/WordSearch3D.java:145-156 | Returns the first direction in x, y, z order along which the word reads from the cell, with no earlier direction matching; returns null iff no direction of the 27 matches |
| Solver.Search | src/WordSearch3D.java:123-136 | Null for a null grid, a null word or an empty word; otherwise the cells of the first matching (cell, direction) in scan order, or null iff nothing matches |
| Solver.FoundIffFindable | src/WordSearch3D.java:123-136 | A search result is non-null iff the grid and word are non-null, the word is non-empty and it reads along some line of the grid |
| Solver.SearchDeterministic | src/WordSearch3D.java:127-131 | At most one result satisfies the search specification: the scan order fixes the answer |
| Solver.SearchReadsBack | src/WordSearch3D.java:123-136 | A non-null result has one cell per letter; each cell is in the grid and holds its letter; consecutive cells differ by one fixed direction vector |
| Solver.SearchEmptyGrid | src/WordSearch3D.java:127-135 | A grid with a zero dimension contains no word, so search returns null |
| Solver.SearchForAll | src/WordSearch3D.java:107-113 | One search result per word, in order, each satisfying the search specification |
| Solver.HasAll | src/WordSearch3D.java:367-371 | True iff every word of the list is findable in the grid |
| Generator.Randomized | src/WordSearch3D.java:94-97 | `Composite.randomize` keeps the word and lays it along the drawn start cell and direction |
| Generator.LastWriteOnLine | src/WordSearch3D.java:329-340 | Along a non-zero vector, after the writes the cell of letter i holds letter i |
| Generator.LastWriteOffLine | src/WordSearch3D.java:329-340 | A cell that is no letter's cell is never written |
| Generator.LastWriteFromWord | src/WordSearch3D.java:329-340 | A written cell is the cell of some letter i and holds letter i |
| Generator.PlacementReadsBack | src/WordSearch3D.java:321-342 | After a placement along a non-zero vector, checkLine finds the word at its anchor and direction in the new grid |
| Generator.PlacementFrame | src/WordSearch3D.java:321-342 | A placement leaves every cell off the word's line unchanged |
| Generator.PlacementZeroVector | src/WordSearch3D.java:329-340 | Along the zero vector every letter lands on the anchor, which ends with the last letter; every other cell is unchanged |
| Generator.PlacementLetters | src/WordSearch3D.java:321-342 | Every cell of a placement holds its old letter or one of the word's letters |
| Generator.DuplicateGrid | src/WordSearch3D.java:349-359 | Returns a fresh grid of the same shape holding the same letters |
| Generator.PlaceWord | src/WordSearch3D.java:321-342 | Null iff some letter's cell `pos + i*vec` falls outside the grid; otherwise a fresh grid that is the input overlaid with the word, the input untouched |
| Generator.Letter | src/WordSearch3D.java:259 | `nextInt(26) + 'a'` is a lower-case letter |
| Generator.MakeRandom | src/WordSearch3D.java:252-264 | A fresh grid of exactly the requested size; each cell is the letter of that cell's draw, so every cell is in 'a'..'z' |
| Generator.TryWord | src/WordSearch3D.java:302-313 | An empty word returns the grid itself. Otherwise attempt k is placeWord's result on the input grid for draw k, null iff the word leaves the grid. Every attempt before the last was rejected. A non-null result is the last attempt: fresh, of the grid's shape, with every word of `upTo` findable. A null result means all MAX_TRIES attempts were rejected |
| Generator.TryMake | src/WordSearch3D.java:285-293 | The ghost run starts from a copy of the base grid. Each next stage is tryWord's outcome on the previous stage for word i, with words 0..i and the draws `draws(i, ·)`. A non-null result is the fresh last stage after every word. A null result means tryWord returned null for the word after the last stage |
| Generator.StageBuilt | src/WordSearch3D.java:285-293 | Every stage of a run of tryMake has the base grid's shape and holds every non-empty word inserted before it. Each of its cells keeps the base letter or holds a letter of some word |
| Generator.RunBuilt | src/WordSearch3D.java:285-293 | A non-null result of a run of tryMake has the base grid's shape and holds every non-empty word of the list. Each of its cells keeps the base letter or holds a letter of some word |
| Generator.Retry | src/WordSearch3D.java:235-242 | Attempts 0..t-1 of the loop ran tryMake on the same base grid with their own draws and ended in null. A null result comes after MAX_TRIES of them; a non-null result is attempt t's fresh grid, with its run |
| Generator.ValidEntries | src/WordSearch3D.java:381 | The kept entries are no more than the list's and all non-empty |
| Generator.ValidEntriesMembers | src/WordSearch3D.java:381 | A word is kept iff it is non-empty and appears in the list as a non-null entry |
| Generator.ValidEntriesAppend | src/WordSearch3D.java:381 | Sanitising a concatenation sanitises each part in order, so the original order is kept |
| Generator.PurgeInvalidWords | src/WordSearch3D.java:378-383 | Null for a null list; otherwise exactly the non-null, non-empty entries in their original order |
| Generator.Longest | src/WordSearch3D.java:271-277 | The longest length is at least every word's length and is the length of some word |
| Generator.GetLongest | src/WordSearch3D.java:271-277 | The loop's maximum, started from the first word, equals the longest word's length |
| Generator.Max3 | src/WordSearch3D.java:233 | `Math.max(sizeX, Math.max(sizeY, sizeZ))` is at least each size and equal to one of them |
| Generator.Make | src/WordSearch3D.java:225-243 | Null for a negative size. When no valid word is requested, makeRandom's grid for `letters`: the requested size, each cell the letter `letters` gives for it. Null when the longest valid word exceeds every dimension. On success, a fresh grid of the requested size in which every valid word is findable and every cell is a lower-case letter or a letter of some word. In the placement case: the base grid is makeRandom's grid for `letters`, and every failed attempt t is a run of tryMake on it with `draws(t, ·, ·)` that ended in null; a null result comes after MAX_TRIES of them; a non-null result is the last stage of the run of the attempt after the failed ones |
| Scenarios.FourLetterWordInOneByOneByFour | test/WordSearchTester.java:16-25 | A findable four-letter word whose first two letters differ fills a 1x1x4 grid forwards or backwards |
| Scenarios.MakeOneDimensional | test/WordSearchTester.java:16-25 | A non-null `make(["java"], 1, 1, 4)` holds "java" or "avaj" along its aisle |
| Scenarios.MakeTooSmall | test/WordSearchTester.java:31-34 | `make(["test"], 1, 1, 1)` is null |
| Scenarios.MakeNegativeSize | test/WordSearchTester.java:170-175 | The four calls of the test, `make(["a"], ...)` with sizes (-1,1,1), (1,-1,1), (1,1,-1) and (-1,-1,-1), are null |
| Scenarios.MakeZeroSize | test/WordSearchTester.java:181-187 | `make([], 0, 0, 0)` is an empty grid and `make(["a"], 0, 0, 0)` is null |
| Scenarios.MakeWithoutWords | test/WordSearchTester.java:216-246 | An empty list, a null list, a list of only empty words and a list of only null words each give a grid of the requested size holding only lower-case letters |
| Scenarios.MakeSkipsInvalid | test/WordSearchTester.java:227-250 | When make with "foo", "", null, "bar" succeeds, search finds "foo" and "bar"; search for "" or null is null |
| Scenarios.SimpleGridFirstMatch | test/WordSearchTester.java:45-58 | In the grid {{a,b,c},{d,f,e}}, "be" first reads from (0,0,1) along (0,1,1) |
| Scenarios.SearchSimple | test/WordSearchTester.java:45-58 | search for "be" in that grid returns exactly (0,0,1), (0,1,2) |

## Left out

- `exportLocations`, `exportGrid` and `main` (file output and a fixed demonstration run) are not modelled.
- `java.util.Random` is replaced by the parameters `letters` and `draws`. The model says nothing about probabilities, and it does not claim that the retries of `tryWord` and `make` ever succeed. `testMakeWithIntersection` depends on luck and is not stated. The second case of `testMakeImpossible` is null for every draw, by counting: "foo", "bar", "lin" and "tut" share no letter, so they need 12 distinct cells, and a 1x3x3 grid has 9. The model does not prove this counting fact.
- `Position.randomize`, `Vector.randomize` and `Composite.randomize` overwrite fields in place. In the model, `tryWord` instead rebinds its composite to `Randomized(word, draws(i))`. The draws are not constrained to the ranges `nextInt` would give, so the success properties hold for every draw.
- Crash paths are preconditions rather than modelled exceptions:
  - `DuplicateGrid` and `PlaceWord` require non-empty first and second dimensions (`grid[0][0]` is read).
  - `TryWord` requires all three dimensions positive for a non-empty word, because `nextInt(0)` throws.
  - `TryMake` and `Make` require the same wherever the source would reach those calls.
  - `MakeRandom` requires non-negative sizes.
- Null references that the types exclude are crash paths the model does not show. None of them is reachable from `make`, which purges the list first:
  - `searchForAll` and `hasAll` with a null list (src/WordSearch3D.java:108 and 368);
  - `tryWord` with a null word (src/WordSearch3D.java:303);
  - a null entry in the list of `tryMake`;
  - a null entry in the list of `getLongest` (src/WordSearch3D.java:272-274).
- Grids, positions, vectors, composites and words are never null in the model. In Java these calls throw `NullPointerException`: `placeWord`, `duplicateGrid` or `tryMake` with a null grid, `checkLine` with a null grid and a non-empty word (src/WordSearch3D.java:173), `checkLine` or `checkAt` with a null position, and `checkLine` or `checkAt` with a null word (src/WordSearch3D.java:171). `make` never makes such a call.
- Longest and GetLongest: `requires |words| > 0` stands in for the `ArrayIndexOutOfBoundsException` that `getLongest` throws at `words[0]` on an empty list (src/WordSearch3D.java:272). `make` never reaches it, because it returns early on an empty list (src/WordSearch3D.java:232).
- Make: the `(double)` comparisons against `Integer.MAX_VALUE` and `Integer.MIN_VALUE` are always false for `int` arguments, so only the negativity guard is modelled.
- Make: `make(["a"], 1, 1, 0)` passes the longest-word guard and then throws in `nextInt(0)`. The precondition excludes such inputs rather than modelling the exception.
- Words and grid cells are Dafny characters, which are Unicode scalar values, while Java's `String.length`, `charAt` and `char` count UTF-16 code units. For characters outside the Basic Multilingual Plane, lengths and cells differ: a word of two U+1F600 characters has length 4 in Java and 2 in the model, so `getLongest` and the fit guard of `make` can decide differently.
- Java arrays of arrays are modelled as one `array3`. A jagged grid cannot be expressed, which matches the source's own assumption.
- Search: the model returns `seq<Position>` where the source returns `int[len][3]`. Aliasing of the returned arrays is not modelled.
