/** Value types shared by every part of the game engine: the two sides, the
    players that sit on them and the S-O-S lines the detector records. */
module SOSGame {

  /** A nullable value, used for the winner, which is absent until someone wins. */
  datatype Option<T> = None | Some(value: T)

  /** The two sides of a game; a player's name is its side ("Blue" or "Red"). */
  datatype Color = Blue | Red {
    /** The side that is not this one. */
    function Other(): (c: Color)
      ensures c != this
    {
      if this == Blue then Red else Blue
    }
  }

  /** How a player supplies its moves. */
  datatype Kind = Human | Computer

  /** A player: the name given at construction and its behaviour. Both are
      immutable, so `name` is what `getName` returns. */
  datatype Player = Player(name: Color, kind: Kind)

  /** A detected S-O-S line: its two endpoint cells and the name of the
      player it was credited to. Every field is immutable. */
  datatype Line = Line(startRow: int, startCol: int, endRow: int, endCol: int, player: Color)
}
