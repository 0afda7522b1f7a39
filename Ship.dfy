/** A ship: a fixed length and a cumulative hit counter (ConsoleApp1/Ship.cs). */
module Ships {

  /** `Ship.Size` is abstract in the source; every concrete ship has a positive length. */
  type ShipSize = s: int | s >= 1 witness 1

  class Ship {
    /** The length of the ship, fixed for its lifetime. */
    const size: ShipSize
    /** `_numberOfHits`: how many shots have struck the ship so far. */
    var hits: nat

    /** A new ship has not been hit and so is afloat. */
    constructor (size: ShipSize)
      ensures this.size == size
      ensures hits == 0 && !IsSunk()
    {
      this.size := size;
      hits := 0;
    }

    /** A ship is sunk once it has taken at least as many hits as it is long; since
        every ship is at least one square long, a sunk ship has been hit. */
    predicate IsSunk(): (sunk: bool)
      reads this
      ensures sunk ==> hits >= 1
      ensures sunk <==> hits >= size
    {
      hits >= size
    }

    /** Registers one more hit; there is no upper bound, so hitting a sunk ship is harmless. */
    method Hit()
      modifies this
      ensures hits == old(hits) + 1
      ensures old(IsSunk()) ==> IsSunk()
      ensures IsSunk() <==> old(hits) + 1 >= size
    {
      hits := hits + 1;
    }
  }
}
