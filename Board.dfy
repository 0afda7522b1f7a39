/**
 * The board: a width x height grid of optional ship references and the
 * rejection-sampling placement of a ship onto it (ConsoleApp1/Board.cs).
 *
 * Placement works on 0-based cell indices; the public position check and
 * read are 1-based. `Random.Next` is modelled as a nondeterministic choice
 * within the range it can return, so every property below holds for every
 * sequence of random draws.
 */
module Boards {
  import opened Wrappers
  import opened Ships

  const MinimumBoardHeight := 1
  const MinimumBoardWidth := 1

  /** A 0-based cell index (positionWidth, positionHeight). */
  type Pos = (int, int)

  /** The four run builders, in the order the candidate list is assembled. */
  datatype Direction = Above | Below | RightSide | LeftSide

  /** Why a game cannot be set up. */
  datatype ConfigError = BoardTooSmall | NoShips | BoardTooHigh | ShipsDoNotFit

  /** The values `Random.Next(minValue, maxValue)` may return: the upper bound is exclusive,
      and equal bounds yield `minValue`. */
  predicate IsNextResult(minValue: int, maxValue: int, r: int)
  {
    if minValue == maxValue then r == minValue else minValue <= r < maxValue
  }

  /** `Random.Next(minValue, maxValue)`, as a nondeterministic choice among the values it may return. */
  method RandomNext(minValue: int, maxValue: int) returns (r: int)
    requires minValue <= maxValue
    ensures IsNextResult(minValue, maxValue, r)
    ensures minValue <= r <= maxValue && (r == maxValue ==> minValue == maxValue)
  {
    assert IsNextResult(minValue, maxValue, minValue);
    r :| IsNextResult(minValue, maxValue, r);
  }

  /** The cell `i` steps away from `p` in direction `d`. */
  function Offset(p: Pos, d: Direction, i: int): Pos
  {
    match d
    case Above => (p.0, p.1 + i)
    case Below => (p.0, p.1 - i)
    case RightSide => (p.0 + i, p.1)
    case LeftSide => (p.0 - i, p.1)
  }

  /** The bound test a run builder makes before it looks at any cell. Below and
      left compare against the 1-based minimums although the indices are 0-based. */
  predicate BoundCheck(d: Direction, p: Pos, n: int, width: int, height: int)
  {
    match d
    case Above => p.1 + n <= height - 1
    case Below => p.1 - n >= MinimumBoardHeight
    case RightSide => p.0 + n <= width - 1
    case LeftSide => p.0 - n >= MinimumBoardWidth
  }

  /** The cells a run builder collects: 1 .. n steps from the anchor, nearest first. */
  function RunCells(p: Pos, d: Direction, n: nat): seq<Pos>
  {
    seq(n, i => Offset(p, d, i + 1))
  }

  /** A candidate placement: the builder's cells with the anchor appended last. */
  function Candidate(p: Pos, d: Direction, n: nat): seq<Pos>
  {
    RunCells(p, d, n) + [p]
  }

  /** An independent description of a legal ship footprint: `size` distinct cells
      on one column (or one row) whose varying coordinates lie within a span of
      `size` - hence exactly fill an interval of that length. */
  ghost predicate IsStraightRun(run: seq<Pos>, size: int)
  {
    |run| == size && size >= 1 &&
    (forall i, j :: 0 <= i < j < |run| ==> run[i] != run[j]) &&
    ((forall i, j :: 0 <= i < |run| && 0 <= j < |run| ==>
        run[i].0 == run[j].0 && -size < run[i].1 - run[j].1 < size) ||
     (forall i, j :: 0 <= i < |run| && 0 <= j < |run| ==>
        run[i].1 == run[j].1 && -size < run[i].0 - run[j].0 < size))
  }

  /** The cell at index `i` of a candidate is `i + 1` steps from the anchor, and the last is the anchor. */
  lemma CandidateAt(p: Pos, d: Direction, n: nat, i: int)
    requires 0 <= i <= n
    ensures |Candidate(p, d, n)| == n + 1
    ensures Candidate(p, d, n)[i] == Offset(p, d, if i < n then i + 1 else 0)
  {
  }

  /** Every candidate is a straight, contiguous run of n + 1 distinct cells that
      ends at the anchor and otherwise lies strictly on one side of it. */
  lemma CandidateIsStraightRun(p: Pos, d: Direction, n: nat)
    ensures IsStraightRun(Candidate(p, d, n), n + 1)
    ensures Candidate(p, d, n)[n] == p
    ensures forall i :: 0 <= i < n ==> Candidate(p, d, n)[i] == Offset(p, d, i + 1)
  {
    var c := Candidate(p, d, n);
    forall i | 0 <= i <= n
      ensures c[i] == Offset(p, d, if i < n then i + 1 else 0)
    {
      CandidateAt(p, d, n, i);
    }
  }

  /** A candidate that passed the bound check, from an anchor inside the grid, stays
      inside the grid; a run to the left or below never reaches index 0. */
  lemma CandidateInBounds(p: Pos, d: Direction, n: nat, width: int, height: int)
    requires 0 <= p.0 < width && 0 <= p.1 < height
    requires BoundCheck(d, p, n, width, height)
    ensures forall q :: q in Candidate(p, d, n) ==> 0 <= q.0 < width && 0 <= q.1 < height
    ensures d == Below ==> forall q :: q in RunCells(p, d, n) ==> q.1 >= 1
    ensures d == LeftSide ==> forall q :: q in RunCells(p, d, n) ==> q.0 >= 1
  {
    CandidateIsStraightRun(p, d, n);
  }

  /** Anchors never lie in the last row or column, so no candidate covers the
      far corner (width - 1, height - 1). */
  lemma CandidateMissesCorner(p: Pos, d: Direction, n: nat, width: int, height: int)
    requires 0 <= p.0 <= width - 2 && 0 <= p.1 <= height - 2
    requires BoundCheck(d, p, n, width, height)
    ensures (width - 1, height - 1) !in Candidate(p, d, n)
  {
    CandidateIsStraightRun(p, d, n);
  }

  class Board {
    const width: int
    const height: int
    /** `_board`: the occupant of each 0-based cell, or null. */
    const cells: array2<Ship?>

    ghost predicate Valid()
    {
      width >= 2 && height >= 2 && cells.Length0 == width && cells.Length1 == height
    }

    predicate InArray(q: Pos)
    {
      0 <= q.0 < width && 0 <= q.1 < height
    }

    function At(q: Pos): Ship?
      reads cells
      requires Valid() && InArray(q)
    {
      cells[q.0, q.1]
    }

    ghost predicate AllEmpty()
      reads cells
      requires Valid()
    {
      forall i, j :: 0 <= i < width && 0 <= j < height ==> cells[i, j] == null
    }

    /** The cell no placement can ever reach. */
    function Corner(): Pos
    {
      (width - 1, height - 1)
    }

    /** A footprint the board can take for a ship of length `size`: straight and
        contiguous, inside the grid, over empty cells, and away from the corner. */
    ghost predicate Placeable(run: seq<Pos>, size: int)
      reads cells
      requires Valid()
    {
      IsStraightRun(run, size) &&
      (forall q :: q in run ==> InArray(q) && At(q) == null) &&
      Corner() !in run
    }

    /** The board after construction: the given dimensions, every cell empty. */
    constructor (boardWidth: int, boardHeight: int)
      requires boardWidth >= 2 && boardHeight >= 2
      ensures Valid() && width == boardWidth && height == boardHeight
      ensures fresh(cells) && AllEmpty()
    {
      width := boardWidth;
      height := boardHeight;
      cells := new Ship?[boardWidth, boardHeight]((i, j) => null);
    }

    /** The 1-based position (w, h) is on the board exactly when its 0-based cell is in the grid. */
    function IsValidPosition(w: int, h: int): (valid: bool)
      requires Valid()
      ensures valid <==> InArray((w - 1, h - 1))
      ensures valid <==> 1 <= w <= cells.Length0 && 1 <= h <= cells.Length1
    {
      w <= width && w >= MinimumBoardWidth && h <= height && h >= MinimumBoardHeight
    }

    /** The occupant of the 1-based position (w, h): the grid cell one less in each
        coordinate, which a valid position always names. Callers check the position
        first. */
    function GetPosition(w: int, h: int): (occupant: Ship?)
      reads cells
      requires Valid() && IsValidPosition(w, h)
      ensures InArray((w - 1, h - 1)) && occupant == At((w - 1, h - 1))
    {
      cells[w - 1, h - 1]
    }

    /** The converse of GetPosition: every grid cell is read through the 1-based
        position one greater in each coordinate. */
    lemma PositionRoundTrip(i: int, j: int)
      requires Valid() && InArray((i, j))
      ensures IsValidPosition(i + 1, j + 1) && GetPosition(i + 1, j + 1) == cells[i, j]
    {
    }

    /** Whether the run builder for direction `d` succeeds from anchor `p`. */
    ghost predicate Eligible(d: Direction, p: Pos, n: nat)
      reads cells
      requires Valid() && InArray(p)
    {
      BoundCheck(d, p, n, width, height) &&
      forall i :: 1 <= i <= n ==> At(Offset(p, d, i)) == null
    }

    /** The candidate list GetPossiblePositions assembles: above, below, right, left. */
    ghost function Candidates(p: Pos, n: nat): seq<seq<Pos>>
      reads cells
      requires Valid() && InArray(p)
    {
      (if Eligible(Above, p, n) then [Candidate(p, Above, n)] else []) +
      (if Eligible(Below, p, n) then [Candidate(p, Below, n)] else []) +
      (if Eligible(RightSide, p, n) then [Candidate(p, RightSide, n)] else []) +
      (if Eligible(LeftSide, p, n) then [Candidate(p, LeftSide, n)] else [])
    }

    /** Each eligible candidate is a straight run of n + 1 in-grid cells through the
        anchor, all of them empty except possibly the anchor itself. */
    lemma EligibleCandidateFits(p: Pos, d: Direction, n: nat)
      requires Valid() && InArray(p) && Eligible(d, p, n)
      ensures IsStraightRun(Candidate(p, d, n), n + 1) && p in Candidate(p, d, n)
      ensures forall q :: q in Candidate(p, d, n) ==> InArray(q) && (q == p || At(q) == null)
    {
      var c := Candidate(p, d, n);
      CandidateIsStraightRun(p, d, n);
      CandidateInBounds(p, d, n, width, height);
      forall q | q in c
        ensures InArray(q) && (q == p || At(q) == null)
      {
        var i :| 0 <= i < |c| && c[i] == q;
        if i < n {
          assert q == Offset(p, d, i + 1);
        }
      }
    }

    /** At most four candidates, each a straight run of n + 1 in-grid cells through the anchor. */
    lemma CandidatesFit(p: Pos, n: nat)
      requires Valid() && InArray(p)
      ensures |Candidates(p, n)| <= 4
      ensures forall c :: c in Candidates(p, n) ==>
        IsStraightRun(c, n + 1) && p in c && forall q :: q in c ==> InArray(q) && (q == p || At(q) == null)
    {
      forall d | Eligible(d, p, n)
        ensures IsStraightRun(Candidate(p, d, n), n + 1) && p in Candidate(p, d, n)
        ensures forall q :: q in Candidate(p, d, n) ==> InArray(q) && (q == p || At(q) == null)
      {
        EligibleCandidateFits(p, d, n);
      }
    }

    /** From an anchor outside the last row and column no candidate covers the corner. */
    lemma CandidatesMissCorner(p: Pos, n: nat)
      requires Valid() && 0 <= p.0 <= width - 2 && 0 <= p.1 <= height - 2
      ensures forall c :: c in Candidates(p, n) ==> Corner() !in c
    {
      forall d | Eligible(d, p, n)
        ensures Corner() !in Candidate(p, d, n)
      {
        CandidateMissesCorner(p, d, n, width, height);
      }
    }

    /** A candidate drawn from an empty anchor outside the last row and column is a
        footprint the board can take. */
    lemma ChosenCandidatePlaceable(p: Pos, n: nat, c: seq<Pos>)
      requires Valid() && 0 <= p.0 <= width - 2 && 0 <= p.1 <= height - 2 && At(p) == null
      requires c in Candidates(p, n)
      ensures Placeable(c, n + 1)
    {
      CandidatesFit(p, n);
      CandidatesMissCorner(p, n);
    }

    /** The four run builders (GetPositionsAbove, GetPositionsBelow,
        GetPositionsOnTheRightSide, GetPositionsOnTheLeftSide) differ only in the
        step direction and the bound test; `d` selects which one runs. */
    method GetPositionsToward(d: Direction, positionWidth: int, positionHeight: int, numberOfSquaresNeeded: nat)
      returns (positions: Option<seq<Pos>>)
      requires Valid() && InArray((positionWidth, positionHeight))
      ensures positions.Some? <==> Eligible(d, (positionWidth, positionHeight), numberOfSquaresNeeded)
      ensures positions.Some? ==> positions.value == RunCells((positionWidth, positionHeight), d, numberOfSquaresNeeded)
    {
      var p := (positionWidth, positionHeight);
      if !BoundCheck(d, p, numberOfSquaresNeeded, width, height) {
        return None;
      }
      var run: seq<Pos> := [];
      for i := 1 to numberOfSquaresNeeded + 1
        invariant run == RunCells(p, d, i - 1)
        invariant forall k :: 1 <= k < i ==> At(Offset(p, d, k)) == null
      {
        var q := Offset(p, d, i);
        var shipAlreadyInPlace := cells[q.0, q.1];
        if shipAlreadyInPlace != null {
          return None;
        }
        run := run + [q];
      }
      return Some(run);
    }

    /** The candidate placements of a ship of length `shipSize` anchored at (w, h). */
    method GetPossiblePositions(shipSize: ShipSize, positionWidth: int, positionHeight: int)
      returns (possiblePositions: seq<seq<Pos>>)
      requires Valid() && InArray((positionWidth, positionHeight))
      ensures possiblePositions == Candidates((positionWidth, positionHeight), shipSize - 1)
      ensures |possiblePositions| <= 4
      ensures forall c :: c in possiblePositions ==>
        IsStraightRun(c, shipSize) && (positionWidth, positionHeight) in c &&
        forall q :: q in c ==> InArray(q) && (q == (positionWidth, positionHeight) || At(q) == null)
    {
      var p := (positionWidth, positionHeight);
      var numberOfSquaresNeeded: nat := shipSize - 1;
      possiblePositions := [];
      var positionsAbove := GetPositionsToward(Above, positionWidth, positionHeight, numberOfSquaresNeeded);
      if positionsAbove.Some? {
        possiblePositions := possiblePositions + [positionsAbove.value + [p]];
      }
      ghost var above := if Eligible(Above, p, numberOfSquaresNeeded) then [Candidate(p, Above, numberOfSquaresNeeded)] else [];
      assert possiblePositions == above;
      var positionsBelow := GetPositionsToward(Below, positionWidth, positionHeight, numberOfSquaresNeeded);
      if positionsBelow.Some? {
        possiblePositions := possiblePositions + [positionsBelow.value + [p]];
      }
      ghost var below := if Eligible(Below, p, numberOfSquaresNeeded) then [Candidate(p, Below, numberOfSquaresNeeded)] else [];
      assert possiblePositions == above + below;
      var positionsOnTheRightSide := GetPositionsToward(RightSide, positionWidth, positionHeight, numberOfSquaresNeeded);
      if positionsOnTheRightSide.Some? {
        possiblePositions := possiblePositions + [positionsOnTheRightSide.value + [p]];
      }
      ghost var right := if Eligible(RightSide, p, numberOfSquaresNeeded) then [Candidate(p, RightSide, numberOfSquaresNeeded)] else [];
      assert possiblePositions == above + below + right;
      var positionsOnTheLeftSide := GetPositionsToward(LeftSide, positionWidth, positionHeight, numberOfSquaresNeeded);
      if positionsOnTheLeftSide.Some? {
        possiblePositions := possiblePositions + [positionsOnTheLeftSide.value + [p]];
      }
      CandidatesFit(p, numberOfSquaresNeeded);
    }

    /** A random empty anchor in [0, width - 2] x [0, height - 2]; `found` is false
        only when `fuel` redraws all hit occupied cells. The grid is only read. */
    method GetNextRandomPosition(fuel: nat) returns (found: bool, positionWidth: int, positionHeight: int)
      requires Valid()
      ensures 0 <= positionWidth <= width - 2 && 0 <= positionHeight <= height - 2
      ensures found <==> cells[positionWidth, positionHeight] == null
    {
      var w := RandomNext(0, width - 1);
      var h := RandomNext(0, height - 1);
      var attempts := 0;
      while cells[w, h] != null && attempts < fuel
        invariant 0 <= w <= width - 2 && 0 <= h <= height - 2
        decreases fuel - attempts
      {
        w := RandomNext(0, width - 1);
        h := RandomNext(0, height - 1);
        attempts := attempts + 1;
      }
      positionWidth, positionHeight := w, h;
      found := cells[positionWidth, positionHeight] == null;
    }

    /** Draws anchors until one has a candidate, then picks a candidate with
        `Random.Next(0, count - 1)`, which never selects the last of two or more. */
    method GetNextRandomPositionForShip(shipSize: ShipSize, fuel: nat)
      returns (found: bool, shipPosition: seq<Pos>, ghost anchor: Pos, ghost selected: int)
      requires Valid()
      ensures found ==> 0 <= anchor.0 <= width - 2 && 0 <= anchor.1 <= height - 2 && At(anchor) == null
      ensures found ==> 1 <= |Candidates(anchor, shipSize - 1)| &&
                        0 <= selected <= Max(0, |Candidates(anchor, shipSize - 1)| - 2) &&
                        shipPosition == Candidates(anchor, shipSize - 1)[selected]
      ensures found ==> Placeable(shipPosition, shipSize)
    {
      found, shipPosition, anchor, selected := false, [], (0, 0), 0;
      var possiblePositions: seq<seq<Pos>> := [];
      var attempts := 0;
      while attempts <= fuel
        invariant possiblePositions == [] || (0 <= anchor.0 <= width - 2 && 0 <= anchor.1 <= height - 2 &&
          At(anchor) == null && possiblePositions == Candidates(anchor, shipSize - 1))
        decreases fuel - attempts + 1
      {
        var ok, positionWidth, positionHeight := GetNextRandomPosition(fuel);
        if !ok {
          return;
        }
        anchor := (positionWidth, positionHeight);
        possiblePositions := GetPossiblePositions(shipSize, positionWidth, positionHeight);
        if possiblePositions != [] {
          break;
        }
        attempts := attempts + 1;
      }
      if possiblePositions == [] {
        return;
      }
      var selectedPosition := RandomNext(0, |possiblePositions| - 1);
      selected := selectedPosition;
      shipPosition := possiblePositions[selectedPosition];
      found := true;
      ChosenCandidatePlaceable(anchor, shipSize - 1, shipPosition);
    }

    /** The `foreach` of PlaceShipRandomlyOnTheBoard: writes `ship` into every cell
        of `run` and leaves every other cell as it was. */
    method WriteShip(ship: Ship, run: seq<Pos>)
      requires Valid()
      requires forall q :: q in run ==> InArray(q)
      modifies cells
      ensures forall i, j :: 0 <= i < width && 0 <= j < height ==>
        cells[i, j] == (if (i, j) in run then ship else old(cells[i, j]))
    {
      for t := 0 to |run|
        invariant forall k :: 0 <= k < t ==> InArray(run[k]) && cells[run[k].0, run[k].1] == ship
        invariant forall i, j :: 0 <= i < width && 0 <= j < height && (i, j) !in run[..t] ==>
          cells[i, j] == old(cells[i, j])
      {
        var positionSquare := run[t];
        assert positionSquare in run;
        cells[positionSquare.0, positionSquare.1] := ship;
        assert run[..t + 1] == run[..t] + [positionSquare];
      }
      assert run[..|run|] == run;
    }

    /** Writes `ship` into every cell of a randomly chosen legal footprint and leaves
        every other cell as it was; with `placed` false nothing changes. */
    method PlaceShipRandomlyOnTheBoard(ship: Ship, fuel: nat) returns (placed: bool, ghost shipPosition: seq<Pos>)
      requires Valid()
      modifies cells
      ensures placed ==> IsStraightRun(shipPosition, ship.size) && Corner() !in shipPosition
      ensures placed ==> forall q :: q in shipPosition ==> InArray(q) && old(cells[q.0, q.1]) == null
      ensures forall i, j :: 0 <= i < width && 0 <= j < height ==>
        cells[i, j] == (if placed && (i, j) in shipPosition then ship else old(cells[i, j]))
      ensures !placed ==> unchanged(cells)
    {
      var run: seq<Pos>;
      ghost var anchor: Pos, selected: int;
      placed, run, anchor, selected := GetNextRandomPositionForShip(ship.size, fuel);
      shipPosition := run;
      if !placed {
        return;
      }
      assert Placeable(run, ship.size);
      WriteShip(ship, run);
    }
  }

  /** The Board constructor with its validation: boards smaller than 2 x 2 are refused. */
  method NewBoard(boardWidth: int, boardHeight: int) returns (r: Result<Board, ConfigError>)
    ensures r.Failure? <==> boardWidth < 2 || boardHeight < 2
    ensures r.Failure? ==> r.error == BoardTooSmall
    ensures r.Success? ==> fresh(r.value) && fresh(r.value.cells) && r.value.Valid()
    ensures r.Success? ==> r.value.width == boardWidth && r.value.height == boardHeight && r.value.AllEmpty()
  {
    if boardWidth < 2 || boardHeight < 2 {
      return Failure(BoardTooSmall);
    }
    var board := new Board(boardWidth, boardHeight);
    return Success(board);
  }
}
