# Battleships: board, ship placement and shooting

A model of the game core of a console Battleships program. It covers:

- `Ship`: a hit counter against a fixed size.
- `Board`: a width × height grid of optional ship references. It has the
  randomised placement of ships: pick an empty anchor, collect the straight
  runs that fit from it in four directions, pick one run, and write the ship
  into its cells.
- `BoardService`: validates the game set-up and creates the board. It places
  the battleships and then the destroyers, and answers shots typed as text
  ("B7", "j10"). The answer is `IncorrectShotValue`, `Miss`, `Hit`, `Sink` or
  `Win`.

Files:

- `Wrappers.dfy`: `Option`, `Result` and `Max`.
- `Ship.dfy`: module `Ships`, the `Ship` class.
- `Board.dfy`: module `Boards`, the `Board` class over an `array2<Ship?>`, and
  the run geometry as functions.
- `ShotInput.dfy`: module `ShotInput`, how a shot's text becomes a
  (column, row) pair. The shot regular expression, the `Alphabet` enum lookup
  and `int.TryParse` are written out character by character.
- `BoardService.dfy`: module `Game`, the `BoardService` class, `NewGame`, and a
  few fixed-board scenarios (`NewTwoShipGame`, `MissScenario`, `SinkScenario`,
  `WinScenario`, `NewOneShipGame`, `RepeatedWinScenario`, `ExampleShots`). The
  scenarios drive `Shoot` through a miss, a sink, a win and a repeated win.

How the model is shaped:

- **Randomness.** `Random.Next(min, max)` is a nondeterministic choice
  (`RandomNext`). It keeps .NET's exclusive upper bound, and equal bounds give
  `min`.
- **Retry loops.** The two unbounded retry loops take a `fuel` bound. When the
  fuel runs out, the search reports "not found".
- **Run builders.** The four run builders (`GetPositionsAbove`, `…Below`,
  `…OnTheRightSide`, `…OnTheLeftSide`) are one method, `GetPositionsToward`,
  with a `Direction` parameter. Their different bound tests are kept case by
  case in `BoundCheck`.
- **Errors.** The constructors' exceptions become `Result` values returned by
  the factories `NewBoard` and `NewGame`. The Dafny constructors require what
  those factories have already checked.
- **Ownership.** Each `BoardService` keeps, as ghost state, the run of cells
  each ship occupies. Its invariant `Valid()` ties the grid, the ship list and
  the runs together.
- **Loop bodies.** The `foreach` that writes a ship into its cells is the
  method `WriteShip`. One pass of the two placing loops is the method
  `PlaceNewShip`.

Quirks of the code that the model reproduces and proves:

- **Anchor range.** Anchors are drawn with `Next(0, width - 1)` and
  `Next(0, height - 1)`, so they come only from columns `0..width-2` and rows
  `0..height-2`.
- **Bound tests.** The "above" and "right" tests are exact, so those runs can
  reach the last row or column. The "below" and "left" tests compare with the
  1-based minimum 1 instead of index 0, so those runs, anchor included, never
  touch row or column 0.
- **Unused corner.** No anchor lies in the last column or the last row. Only
  "above" runs reach a higher row, and they keep the anchor's column (at most
  width-2); only "right" runs reach a higher column, and they keep the anchor's
  row (at most height-2). So the cell (width-1, height-1) is never occupied.
- **Last candidate never chosen.** The candidate run is chosen with
  `Next(0, count - 1)`, so when there are two or more candidates the last one
  is never chosen.
- **Height, not width.** The set-up check bounds the board height by 26, but
  the letter of a shot selects the column. Columns past Z can never be shot.
- **Trailing line feed.** In .NET the regular expression's `$` also matches
  before a final line feed, and `int.TryParse` skips surrounding white space.
  So "A5\n" is read as A5.

## Model

| member | source | states |
|---|---|---|
| Ships.Ship.constructor | ConsoleApp1/Ship.cs:5-9 | A new ship has the given size, no hits, and is not sunk. |
| Ships.Ship.IsSunk | ConsoleApp1/Ship.cs:7 | A ship is sunk exactly when its hits reach its size, and a sunk ship has been hit at least once. |
| Ships.Ship.Hit | ConsoleApp1/Ship.cs:7-11 | One more hit is counted. Afterwards the ship is sunk exactly when the hits reach its size. A sunk ship stays sunk. |
| Boards.RandomNext | ConsoleApp1/Board.cs:231-232 | `Random.Next(min, max)` returns a value in [min, max) when min < max, and min when the bounds are equal. |
| Boards.CandidateIsStraightRun | ConsoleApp1/Board.cs:120-226 | A direction's cells followed by the anchor form `n + 1` distinct colinear cells within `n` of each other. The anchor is last, and every other cell is the anchor moved `i` steps in that direction. |
| Boards.CandidateInBounds | ConsoleApp1/Board.cs:125-206 | A run that passes its direction's bound test, from an anchor in the drawn range, stays on the board. "Below" and "left" runs keep the moving coordinate at 1 or more. |
| Boards.CandidateMissesCorner | ConsoleApp1/Board.cs:228-232 | No candidate run from a drawn anchor contains the cell (width-1, height-1). |
| Boards.Board.constructor | ConsoleApp1/Board.cs:17-20 | The board has the given dimensions and a fresh grid of that size with every cell empty. |
| Boards.NewBoard | ConsoleApp1/Board.cs:13-21 | Fails with `BoardTooSmall` exactly when width or height is below 2. Otherwise it gives an empty board of the requested size. |
| Boards.Board.IsValidPosition | ConsoleApp1/Board.cs:23-28 | A 1-based position is valid exactly when it names a cell of the grid. |
| Boards.Board.GetPosition | ConsoleApp1/Board.cs:30-31 | A valid 1-based position (w, h) reads the grid cell (w-1, h-1), which always lies on the grid. |
| Boards.Board.PositionRoundTrip | ConsoleApp1/Board.cs:30-31 | The converse: every grid cell (i, j) is read through the valid 1-based position (i+1, j+1). |
| Boards.Board.GetPositionsToward | ConsoleApp1/Board.cs:120-226 | Returns a run exactly when the direction's bound test passes and the `n` cells beyond the anchor are empty. The run is those cells in order from the anchor outward. |
| Boards.Board.EligibleCandidateFits | ConsoleApp1/Board.cs:71-115 | An eligible direction's candidate is a straight run of the ship's size on the grid. It is empty except at the anchor. |
| Boards.Board.CandidatesFit | ConsoleApp1/Board.cs:64-118 | There are at most four candidates. Each is a straight run of the ship's size that contains the anchor and lies on the grid, empty except at the anchor. |
| Boards.Board.CandidatesMissCorner | ConsoleApp1/Board.cs:228-249 | No candidate from a drawn anchor contains the corner cell. |
| Boards.Board.ChosenCandidatePlaceable | ConsoleApp1/Board.cs:43-61 | Any candidate from an empty drawn anchor can take the ship: a straight run of empty grid cells that avoids the corner. |
| Boards.Board.GetPossiblePositions | ConsoleApp1/Board.cs:64-118 | Returns the candidates above, below, right and left, in that order, each with the anchor appended. It returns at most four runs, each straight, on the grid and empty except at the anchor. |
| Boards.Board.GetNextRandomPosition | ConsoleApp1/Board.cs:228-249 | Any anchor returned lies in [0, width-2] × [0, height-2]. It is reported found exactly when its cell is empty. |
| Boards.Board.GetNextRandomPositionForShip | ConsoleApp1/Board.cs:43-62 | A found placement is one of the anchor's candidates. Its index is at most count-2 (or 0), so it is never the last of several. It is placeable. |
| Boards.Board.WriteShip | ConsoleApp1/Board.cs:37-40 | Every cell of the run holds the ship afterwards, and every other cell is unchanged. |
| Boards.Board.PlaceShipRandomlyOnTheBoard | ConsoleApp1/Board.cs:33-41 | Once placed, the ship fills exactly a straight run of previously empty cells of its size that misses the corner. Every other cell is unchanged. |
| ShotInput.ToUpper | ConsoleApp1/BoardService.cs:43 | Upper-casing keeps the length, leaves no lower-case ASCII letter, and keeps every other character as it was. |
| ShotInput.TryParseInt | ConsoleApp1/BoardService.cs:50 | A number that parses lies in the 32-bit range from -2^31 to 2^31 - 1. |
| ShotInput.ParseShot | ConsoleApp1/BoardService.cs:32-50 | A shot that parses matches the regular expression. Its column is its letter's alphabet position, 1 to 26, in either case, and its row is a 32-bit integer. |
| ShotInput.ParseShotAcceptsExactlyTheRegex | ConsoleApp1/BoardService.cs:32-50 | A shot parses exactly when it matches the regular expression. Its column is the letter's alphabet position (1 to 26) and its row is the digits' value (0 to 99). The later `IncorrectShotValue` fallbacks are unreachable. |
| ShotInput.ShortDigitsValue | ConsoleApp1/BoardService.cs:8 | One or two digits are worth at most 99, with the usual decimal value. |
| ShotInput.TrimDigits | ConsoleApp1/BoardService.cs:41-50 | Digits with or without a final line feed trim to the digits themselves. |
| ShotInput.ParseShotIgnoresLetterCase | ConsoleApp1/BoardService.cs:43-48 | Upper-casing the letter never changes the outcome of a shot. |
| ShotInput.ParseFormatShot | ConsoleApp1/BoardService.cs:39-50 | The canonical text of any column 1..26 and row 0..99 parses back to that column and row. |
| Game.ExampleShots | ConsoleApp1/BoardService.cs:32-50 | "@3" is rejected. "A10" is (1, 10), "C3" is (3, 3), "b2" reads as "B2" = (2, 2), and "D4" is (4, 4). |
| Game.BoardService.constructor | ConsoleApp1/BoardService.cs:21-23 | A service over an empty board starts with no ships and satisfies its invariant. |
| Game.BoardService.ShipsDoNotOverlap | ConsoleApp1/BoardService.cs:85-107 | Under the invariant, two different ships never share a cell. |
| Game.BoardService.EveryShipIsOnTheBoard | ConsoleApp1/BoardService.cs:85-107 | Under the invariant, each ship holds exactly the cells of its run and no others, and its run is a straight line of distinct grid cells as many as the ship is long. |
| Game.BoardService.PlaceNewShip | ConsoleApp1/BoardService.cs:99-106 | When placed, a fresh unhit ship of the given size and its run are appended, and earlier ships and runs are kept. Otherwise the list, the runs and the grid are unchanged. Occupied cells never change, and the invariant is kept either way. |
| Game.BoardService.PlaceShipsOnTheBoard | ConsoleApp1/BoardService.cs:85-107 | Appends up to `count` fresh ships of the given size with no hits, each placed on the board. All `max(count, 0)` are placed unless a search gives up. Earlier ships, their runs and their cells are kept, and the invariant holds. |
| Game.BoardService.ShotColumnsStopAtZ | ConsoleApp1/BoardService.cs:43-57 | Any shot that reaches the board names a column from 1 to 26 and a row on the board, and hits the grid cell it names. |
| Game.BoardService.Shoot | ConsoleApp1/BoardService.cs:30-83 | `IncorrectShotValue` exactly when the text does not name a cell. `Miss` exactly when it names an empty cell. On a ship, only that ship gains a hit, and the answer is `Hit`, `Sink` or `Win` by whether it sank and whether every ship is now sunk. The grid never changes, and the invariant is kept. |
| Game.ValidateGameSetUp | ConsoleApp1/BoardService.cs:109-123 | The set-up passes exactly when some ship is requested and the height is at most 26. `NoShips` is reported exactly when no ship is requested, whatever the height, and `BoardTooHigh` exactly when ships are requested but the height exceeds 26. |
| Game.NewGame | ConsoleApp1/BoardService.cs:13-28 | `NoShips` exactly when both counts are below 1, `BoardTooHigh` exactly when ships are given but height exceeds 26, and `BoardTooSmall` exactly when those pass but a side is below 2. Otherwise battleships come first, then destroyers, all fresh and unhit, and the invariant holds. |

## Left out

- The console loop (`Program.cs`), its prompts and its output are outside the model.
- Boards.RandomNext: states only the range of `Random.Next`; its distribution is not modelled.
- Boards.Board.GetPosition: requires a valid position. In the code an invalid one makes the array access throw; its only caller, `Shoot`, checks the position first.
- Boards.Board.GetNextRandomPosition: the redraw loop runs at most `fuel` times. In the code it runs until it finds an empty anchor, and it never returns on a board whose anchor range is full.
- Boards.Board.GetNextRandomPositionForShip: the candidate search runs at most `fuel` times. In the code it loops for ever when no anchor has a candidate.
- Game.NewGame: returns `ShipsDoNotFit` when a placement search gives up. The code has no such outcome; there it would hang.
- Ships.Ship.Hit: the hit counter is unbounded, and the 32-bit wrap-around after 2^31 - 1 hits is not modelled.
- Ships: the concrete `Battleship` and `Destroyer` subclasses and their sizes are parameters (`battleshipSize`, `destroyerSize`) of `NewGame`. Any size of at least 1 is accepted.
- The exception messages of the set-up checks become the `ConfigError` values.
- ShotInput.ParseShot: `ToUpper` is modelled for ASCII letters only, because only they pass the regular expression. Culture-specific casing is not modelled.
- ShotInput.TryParseInt: models white space, sign, decimal digits and the 32-bit range. Other number styles and culture settings are not modelled.
- The general .NET regular expression engine and `Enum` machinery are replaced by the one pattern and the one enum they are used with.
- Game.BoardService.Shoot: a null shot string, which makes `Regex.Match` throw, cannot be expressed, because Dafny strings are never null.
- Boards.Board.constructor and Game.BoardService.constructor require what `NewBoard` and `NewGame` check. The failing cases are modelled in those factories, because a Dafny constructor cannot fail.
