/**
 * A game session (ConsoleApp1/BoardService.cs): the board, the ships placed on
 * it, and the resolution of a shot into one of five outcomes.
 *
 * The board's cells hold references to the same Ship objects the session
 * lists, so a hit through a cell is seen through the list.
 */
module Game {
  import opened Wrappers
  import opened Ships
  import opened Boards
  import opened ShotInput

  datatype ShotResults = IncorrectShotValue | Miss | Hit | Sink | Win

  /** The session's own set-up checks, first failure first: a game needs at least
      one ship of either kind, and a board no higher than the alphabet has letters.
      A fleet-less set-up is reported as such whatever the height. */
  function ValidateGameSetUp(battleships: int, destroyers: int, boardHeight: int): (error: Option<ConfigError>)
    ensures error.None? <==> (battleships >= 1 || destroyers >= 1) && boardHeight <= AlphabetZ
    ensures error == Some(NoShips) <==> battleships < 1 && destroyers < 1
    ensures error == Some(BoardTooHigh) <==> (battleships >= 1 || destroyers >= 1) && boardHeight > AlphabetZ
  {
    if battleships < 1 && destroyers < 1 then Some(NoShips)
    else if boardHeight > AlphabetZ then Some(BoardTooHigh)
    else None
  }

  class BoardService {
    /** `_board` */
    const board: Board
    /** `_shipsOnTheBoard`, in the order the ships were placed. */
    var ships: seq<Ship>
    /** The footprint each listed ship was given, index by index. */
    ghost var runs: seq<seq<Pos>>

    /** The session invariant: the listed ships and their footprints agree with the grid. */
    ghost predicate Valid()
      reads this, board.cells
    {
      Consistent(ships, runs)
    }

    /** The ships are distinct; each occupies exactly the cells of its footprint, a
        straight contiguous run of its length inside the grid; every occupied cell
        belongs to a listed ship; the far corner is never occupied. */
    ghost predicate Consistent(fleet: seq<Ship>, footprints: seq<seq<Pos>>)
      reads board.cells
    {
      board.Valid() &&
      |footprints| == |fleet| &&
      (forall k, l :: 0 <= k < l < |fleet| ==> fleet[k] != fleet[l]) &&
      (forall k :: 0 <= k < |fleet| ==> IsStraightRun(footprints[k], fleet[k].size)) &&
      (forall k, q :: 0 <= k < |fleet| && q in footprints[k] ==> board.InArray(q)) &&
      (forall k, i, j :: 0 <= k < |fleet| && 0 <= i < board.width && 0 <= j < board.height ==>
        ((i, j) in footprints[k] <==> board.cells[i, j] == fleet[k])) &&
      (forall i, j :: 0 <= i < board.width && 0 <= j < board.height ==>
        board.cells[i, j] == null || board.cells[i, j] in fleet) &&
      board.cells[board.width - 1, board.height - 1] == null
    }

    /** A session over an empty board, before any ship is placed. */
    constructor (board: Board)
      requires board.Valid() && board.AllEmpty()
      ensures this.board == board && ships == [] && Valid()
    {
      this.board := board;
      ships := [];
      runs := [];
    }

    /** No two ships share a cell. */
    lemma ShipsDoNotOverlap()
      requires Valid()
      ensures forall k, l, q :: 0 <= k < |ships| && 0 <= l < |ships| && k != l && q in runs[k] ==> q !in runs[l]
    {
      forall k, l, q | 0 <= k < |ships| && 0 <= l < |ships| && k != l && q in runs[k]
        ensures q !in runs[l]
      {
        assert board.InArray(q);
        assert board.cells[q.0, q.1] == ships[k];
        if k < l {
          assert ships[k] != ships[l];
        } else {
          assert ships[l] != ships[k];
        }
      }
    }

    /** Every listed ship is on the board: it holds exactly the cells of its run, a
        straight line of distinct cells as many as it is long. */
    lemma EveryShipIsOnTheBoard()
      requires Valid()
      ensures forall k :: 0 <= k < |ships| ==> |runs[k]| == ships[k].size >= 1
      ensures forall k :: 0 <= k < |ships| ==> IsStraightRun(runs[k], ships[k].size)
      ensures forall k, q :: 0 <= k < |ships| && q in runs[k] ==> board.InArray(q) && board.At(q) == ships[k]
      ensures forall k, i, j ::
        0 <= k < |ships| && 0 <= i < board.width && 0 <= j < board.height && board.cells[i, j] == ships[k] ==>
          (i, j) in runs[k]
    {
      assert Consistent(ships, runs);
    }

    /** One pass of the placing loops: a new ship of length `size`, put on the board
        and appended to the list. No ship already on the board moves. `placed` is
        false only if placement ran out of `fuel`, and then the list, the
        footprints and the grid are as they were. */
    method PlaceNewShip(size: ShipSize, fuel: nat) returns (placed: bool, ship: Ship)
      requires Valid()
      modifies this, board.cells
      ensures Valid() && fresh(ship) && ship.size == size && ship.hits == 0
      ensures ships == if placed then old(ships) + [ship] else old(ships)
      ensures placed ==> |runs| == old(|runs|) + 1 && runs[..old(|runs|)] == old(runs)
      ensures !placed ==> runs == old(runs) && unchanged(board.cells)
      ensures forall i, j :: 0 <= i < board.width && 0 <= j < board.height && old(board.cells[i, j]) != null ==>
        board.cells[i, j] == old(board.cells[i, j])
    {
      ship := new Ship(size);
      ghost var run: seq<Pos>;
      placed, run := board.PlaceShipRandomlyOnTheBoard(ship, fuel);
      if placed {
        ships := ships + [ship];
        runs := runs + [run];
      }
    }

    /** PlaceBattleshipsOnTheBoard and PlaceDestroyersOnTheBoard: create `count` new
        ships of length `size` and place each in turn, appending it to the list.
        `ok` is false only if a placement ran out of `fuel`. */
    method PlaceShipsOnTheBoard(count: int, size: ShipSize, fuel: nat) returns (ok: bool)
      requires Valid()
      modifies this, board.cells
      ensures Valid()
      ensures old(|ships|) <= |ships| <= old(|ships|) + Max(0, count)
      ensures ok ==> |ships| == old(|ships|) + Max(0, count)
      ensures ships[..old(|ships|)] == old(ships) && runs[..old(|runs|)] == old(runs)
      ensures forall k :: old(|ships|) <= k < |ships| ==> fresh(ships[k]) && ships[k].size == size && ships[k].hits == 0
      ensures forall i, j :: 0 <= i < board.width && 0 <= j < board.height && old(board.cells[i, j]) != null ==>
        board.cells[i, j] == old(board.cells[i, j])
    {
      ok := true;
      var i := 0;
      while i < count
        invariant Valid()
        invariant 0 <= i && |ships| == old(|ships|) + i
        invariant i <= Max(0, count)
        invariant ships[..old(|ships|)] == old(ships) && runs[..old(|runs|)] == old(runs)
        invariant forall i, j :: 0 <= i < board.width && 0 <= j < board.height && old(board.cells[i, j]) != null ==>
          board.cells[i, j] == old(board.cells[i, j])
        invariant forall k :: old(|ships|) <= k < |ships| ==> fresh(ships[k]) && ships[k].size == size && ships[k].hits == 0
        decreases count - i
      {
        var placed, ship := PlaceNewShip(size, fuel);
        if !placed {
          ok := false;
          return;
        }
        i := i + 1;
      }
    }

    /** Whether a shot passes every check before the occupancy check: it parses,
        and its (column, row) is a position on the board. */
    predicate OnBoard(shootSquarePosition: string)
      requires board.Valid()
    {
      var target := ParseShot(shootSquarePosition);
      target.Some? && board.IsValidPosition(target.value.0, target.value.1)
    }

    /** The ship a shot strikes, or null when it is rejected or falls on an empty cell. */
    function Target(shootSquarePosition: string): Ship?
      reads board.cells
      requires board.Valid()
    {
      if OnBoard(shootSquarePosition) then
        var target := ParseShot(shootSquarePosition).value;
        board.GetPosition(target.0, target.1)
      else null
    }

    /** The letter picks the column, yet only the height is bounded by Z: a shot
        never reaches a cell whose 0-based column is 26 or more, so a ship lying
        wholly there on a wider board can never be sunk. */
    lemma ShotColumnsStopAtZ(shootSquarePosition: string)
      requires board.Valid()
      ensures Target(shootSquarePosition) != null ==> OnBoard(shootSquarePosition)
      ensures OnBoard(shootSquarePosition) ==>
        var target := ParseShot(shootSquarePosition).value;
        1 <= target.0 <= AlphabetZ && 1 <= target.1 <= board.height &&
        Target(shootSquarePosition) == board.cells[target.0 - 1, target.1 - 1]
    {
      ParseShotAcceptsExactlyTheRegex(shootSquarePosition);
    }

    /** `_shipsOnTheBoard.All(s => s.IsSunk)` */
    predicate AllShipsSunk()
      reads this, ships
    {
      forall k :: 0 <= k < |ships| ==> ships[k].IsSunk()
    }

    /** Resolves a shot. A rejected shot or a miss changes nothing; a hit adds one to
        the hit count of the struck ship alone, and the outcome is Hit while that ship
        floats, Win once every ship is sunk, and Sink otherwise. */
    method Shoot(shootSquarePosition: string) returns (result: ShotResults)
      requires Valid()
      modifies ships
      ensures Valid() && unchanged(this, board.cells)
      ensures Target(shootSquarePosition) != null ==> Target(shootSquarePosition) in ships
      ensures forall k :: 0 <= k < |ships| ==>
        ships[k].hits == old(ships[k].hits) + (if ships[k] == Target(shootSquarePosition) then 1 else 0)
      ensures result == IncorrectShotValue <==> !OnBoard(shootSquarePosition)
      ensures result == Miss <==> OnBoard(shootSquarePosition) && Target(shootSquarePosition) == null
      ensures Target(shootSquarePosition) != null ==>
        result == (if !Target(shootSquarePosition).IsSunk() then Hit else if AllShipsSunk() then Win else Sink)
      ensures result == Win <==> Target(shootSquarePosition) != null && AllShipsSunk()
    {
      var target := ParseShot(shootSquarePosition);
      if target.None? {
        return IncorrectShotValue;
      }
      var letter, number := target.value.0, target.value.1;
      var positionIsValid := board.IsValidPosition(letter, number);
      if !positionIsValid {
        return IncorrectShotValue;
      }
      var ship := board.GetPosition(letter, number);
      if ship == null {
        return Miss;
      }
      ship.Hit();
      if ship.IsSunk() {
        if AllShipsSunk() {
          return Win;
        }
        return Sink;
      }
      return Hit;
    }
  }

  /** The BoardService constructor: validate the set-up, build the board, then place
      the battleships followed by the destroyers. ShipsDoNotFit stands for a
      placement that ran out of `fuel`, where the source would keep retrying. */
  method NewGame(boardWidth: int, boardHeight: int, battleships: int, destroyers: int,
                 battleshipSize: ShipSize, destroyerSize: ShipSize, fuel: nat)
    returns (r: Result<BoardService, ConfigError>)
    ensures r == Failure(NoShips) <==> battleships < 1 && destroyers < 1
    ensures r == Failure(BoardTooHigh) <==> (battleships >= 1 || destroyers >= 1) && boardHeight > AlphabetZ
    ensures r == Failure(BoardTooSmall) <==>
      (battleships >= 1 || destroyers >= 1) && boardHeight <= AlphabetZ && (boardWidth < 2 || boardHeight < 2)
    ensures r.Success? ==> fresh(r.value) && fresh(r.value.board.cells) && r.value.Valid()
    ensures r.Success? ==> r.value.board.width == boardWidth && r.value.board.height == boardHeight
    ensures r.Success? ==> |r.value.ships| == Max(0, battleships) + Max(0, destroyers)
    ensures r.Success? ==> forall k :: 0 <= k < |r.value.ships| ==>
      fresh(r.value.ships[k]) && r.value.ships[k].hits == 0 &&
      r.value.ships[k].size == (if k < Max(0, battleships) then battleshipSize else destroyerSize)
  {
    var invalid := ValidateGameSetUp(battleships, destroyers, boardHeight);
    if invalid.Some? {
      return Failure(invalid.value);
    }
    var created := NewBoard(boardWidth, boardHeight);
    if created.Failure? {
      return Failure(created.error);
    }
    var game := new BoardService(created.value);
    var ok := game.PlaceShipsOnTheBoard(battleships, battleshipSize, fuel);
    if !ok {
      return Failure(ShipsDoNotFit);
    }
    ok := game.PlaceShipsOnTheBoard(destroyers, destroyerSize, fuel);
    if !ok {
      return Failure(ShipsDoNotFit);
    }
    return Success(game);
  }

  /** The invariant of a 5 x 5 board holding two distinct one-cell ships at (1, 1)
      and (3, 3) and nothing else. */
  lemma TwoShipGameValid(game: BoardService)
    requires game.board.Valid() && game.board.width == 5 && game.board.height == 5
    requires |game.ships| == 2 && game.ships[0] != game.ships[1]
    requires game.ships[0].size == 1 && game.ships[1].size == 1
    requires game.runs == [[(1, 1)], [(3, 3)]]
    requires forall i, j :: 0 <= i < 5 && 0 <= j < 5 ==>
      game.board.cells[i, j] ==
        (if (i, j) == (1, 1) then game.ships[0] else if (i, j) == (3, 3) then game.ships[1] else null)
    ensures game.Valid()
  {
    assert IsStraightRun([(1, 1)], 1) && IsStraightRun([(3, 3)], 1);
    var board := game.board;
    forall k, q | 0 <= k < |game.ships| && q in game.runs[k]
      ensures board.InArray(q)
    {
      assert q == (if k == 0 then (1, 1) else (3, 3));
    }
    forall k, i, j | 0 <= k < |game.ships| && 0 <= i < board.width && 0 <= j < board.height
      ensures (i, j) in game.runs[k] <==> board.cells[i, j] == game.ships[k]
    {
      assert (i, j) in game.runs[k] <==> (i, j) == (if k == 0 then (1, 1) else (3, 3));
    }
    forall i, j | 0 <= i < board.width && 0 <= j < board.height
      ensures board.cells[i, j] == null || board.cells[i, j] in game.ships
    {
      assert game.ships[0] in game.ships && game.ships[1] in game.ships;
    }
    assert forall k, l :: 0 <= k < l < |game.ships| ==> game.ships[k] != game.ships[l];
    assert board.cells[board.width - 1, board.height - 1] == null;
  }

  /** A 5 x 5 game with two one-cell ships, at B2 (cell (1, 1)) and D4 (cell (3, 3)). */
  method NewTwoShipGame() returns (game: BoardService, first: Ship, second: Ship)
    ensures fresh(game) && fresh(game.board.cells) && fresh(first) && fresh(second) && game.Valid()
    ensures game.board.width == 5 && game.board.height == 5 && game.ships == [first, second]
    ensures game.board.cells[1, 1] == first && game.board.cells[3, 3] == second
    ensures game.board.cells[2, 2] == null
    ensures first.size == 1 && second.size == 1 && first.hits == 0 && second.hits == 0
  {
    var board := new Board(5, 5);
    game := new BoardService(board);
    first := new Ship(1);
    second := new Ship(1);
    board.cells[1, 1] := first;
    board.cells[3, 3] := second;
    game.ships := [first, second];
    game.runs := [[(1, 1)], [(3, 3)]];
    TwoShipGameValid(game);
  }

  /** The shots of the scenarios "@3", "A10", "C3", "b2", "B2" and "D4" read as expected. */
  lemma ExampleShots()
    ensures ParseShot("@3") == None
    ensures ParseShot("A10") == Some((1, 10))
    ensures ParseShot("C3") == Some((3, 3))
    ensures ParseShot("b2") == ParseShot("B2") == Some((2, 2))
    ensures ParseShot("D4") == Some((4, 4))
  {
    assert !MatchesShootRegex("@3");
    ParseFormatShot(1, 10);
    assert FormatShot(1, 10) == "A10";
    ParseFormatShot(3, 3);
    assert FormatShot(3, 3) == "C3";
    ParseFormatShot(2, 2);
    assert FormatShot(2, 2) == "B2";
    ParseShotIgnoresLetterCase("b2");
    assert [UpperChar('b')] + "b2"[1..] == "B2";
    ParseFormatShot(4, 4);
    assert FormatShot(4, 4) == "D4";
  }

  /** Rejected shots and a miss on the board of NewTwoShipGame, resolved through the
      contracts of Shoot alone; ExampleShots gives texts that read as these shots. */
  method MissScenario(malformed: string, offBoard: string, water: string)
    requires ParseShot(malformed) == None
    requires ParseShot(offBoard) == Some((1, 10))
    requires ParseShot(water) == Some((3, 3))
  {
    var game, first, second := NewTwoShipGame();
    assert !game.board.IsValidPosition(1, 10) && game.board.IsValidPosition(3, 3);
    var r := game.Shoot(malformed);
    assert r == IncorrectShotValue;
    r := game.Shoot(offBoard);
    assert r == IncorrectShotValue;
    assert game.OnBoard(water) && game.Target(water) == null;
    r := game.Shoot(water);
    assert r == Miss;
    assert first.hits == 0 && second.hits == 0;
  }

  /** Sinking one of two ships, typed in lower case, yields Sink. */
  method SinkScenario(lowerB2: string) returns (game: BoardService, first: Ship, second: Ship)
    requires ParseShot(lowerB2) == Some((2, 2))
    ensures fresh(game) && fresh(game.board.cells) && fresh(first) && fresh(second) && game.Valid()
    ensures game.board.width == 5 && game.board.height == 5 && game.ships == [first, second]
    ensures game.board.cells[3, 3] == second && second.size == 1
    ensures first.IsSunk() && second.hits == 0
  {
    game, first, second := NewTwoShipGame();
    assert game.board.IsValidPosition(2, 2);
    assert game.OnBoard(lowerB2) && game.Target(lowerB2) == first;
    var r := game.Shoot(lowerB2);
    assert first.hits == 1 && second.hits == 0;
    assert r == Sink;
  }

  /** Sinking the other ship afterwards yields Win. */
  method WinScenario(lowerB2: string, d4: string)
    requires ParseShot(lowerB2) == Some((2, 2))
    requires ParseShot(d4) == Some((4, 4))
  {
    var game, first, second := SinkScenario(lowerB2);
    assert game.board.IsValidPosition(4, 4);
    assert game.OnBoard(d4) && game.Target(d4) == second;
    var r := game.Shoot(d4);
    assert first.IsSunk() && second.IsSunk();
    assert r == Win;
  }

  /** The invariant of a 5 x 5 board holding one one-cell ship at (1, 1) and nothing else. */
  lemma OneShipGameValid(game: BoardService)
    requires game.board.Valid() && game.board.width == 5 && game.board.height == 5
    requires |game.ships| == 1 && game.ships[0].size == 1
    requires game.runs == [[(1, 1)]]
    requires forall i, j :: 0 <= i < 5 && 0 <= j < 5 ==>
      game.board.cells[i, j] == (if (i, j) == (1, 1) then game.ships[0] else null)
    ensures game.Valid()
  {
    assert IsStraightRun([(1, 1)], 1);
    var board := game.board;
    forall k, q | 0 <= k < |game.ships| && q in game.runs[k]
      ensures board.InArray(q)
    {
      assert q == (1, 1);
    }
    forall k, i, j | 0 <= k < |game.ships| && 0 <= i < board.width && 0 <= j < board.height
      ensures (i, j) in game.runs[k] <==> board.cells[i, j] == game.ships[k]
    {
      assert (i, j) in game.runs[k] <==> (i, j) == (1, 1);
    }
    forall i, j | 0 <= i < board.width && 0 <= j < board.height
      ensures board.cells[i, j] == null || board.cells[i, j] in game.ships
    {
      assert game.ships[0] in game.ships;
    }
    assert board.cells[board.width - 1, board.height - 1] == null;
  }

  /** A 5 x 5 game with one one-cell ship at B2. */
  method NewOneShipGame() returns (game: BoardService, ship: Ship)
    ensures fresh(game) && fresh(game.board.cells) && fresh(ship) && game.Valid()
    ensures game.board.width == 5 && game.board.height == 5 && game.ships == [ship]
    ensures game.board.cells[1, 1] == ship && ship.size == 1 && ship.hits == 0
  {
    var board := new Board(5, 5);
    game := new BoardService(board);
    ship := new Ship(1);
    board.cells[1, 1] := ship;
    game.ships := [ship];
    game.runs := [[(1, 1)]];
    OneShipGameValid(game);
  }

  /** Sinking the only ship wins, and shooting it again wins again: nothing locks the game. */
  method RepeatedWinScenario(b2: string)
    requires ParseShot(b2) == Some((2, 2))
  {
    var game, ship := NewOneShipGame();
    assert game.board.IsValidPosition(2, 2);
    assert game.OnBoard(b2) && game.Target(b2) == ship;
    var r := game.Shoot(b2);
    assert r == Win;
    r := game.Shoot(b2);
    assert ship.hits == 2;
    assert r == Win;
  }
}
