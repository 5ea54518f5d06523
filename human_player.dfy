/** A human player's move: validate the coordinates, the target cell and the
    letter, then write exactly one cell of the game's board. */
module HumanPlayer {
  import opened SOSGame
  import opened Board
  import opened LineDetector
  import opened SOSGameBase

  /** The move is accepted: (row, col) is on the board, the cell is empty and
      the letter is 'S' or 'O'. */
  ghost predicate Legal(g: Grid, row: int, col: int, letter: char)
    requires Square(g)
  {
    InBounds(|g|, row, col) && g[row][col] == Empty && (letter == 'S' || letter == 'O')
  }

  /** Places `letter` at (row, col) if the move is legal and reports whether
      it did; a rejected move leaves the board untouched. */
  method MakeMove(game: GameBase, row: int, col: int, letter: char) returns (ok: bool)
    requires game.Valid()
    modifies game.board
    ensures game.Valid()
    ensures ok == Legal(old(game.Cells()), row, col, letter)
    ensures ok ==> game.Cells() == Place(old(game.Cells()), row, col, letter)
    ensures !ok ==> game.Cells() == old(game.Cells())
    ensures ok ==> |EmptyCells(game.Cells())| == |EmptyCells(old(game.Cells()))| - 1
  {
    if row < 0 || row >= game.boardSize || col < 0 || col >= game.boardSize {
      return false;
    }
    if game.board[row, col] != Empty {
      return false;
    }
    if letter != 'S' && letter != 'O' {
      return false;
    }
    ghost var g := game.Cells();
    game.board[row, col] := letter;
    ghost var g' := game.Cells();
    forall i | 0 <= i < |g|
      ensures g'[i] == Place(g, row, col, letter)[i]
    {
      assert forall j :: 0 <= j < |g| ==> g'[i][j] == Place(g, row, col, letter)[i][j];
    }
    assert g' == Place(g, row, col, letter);
    PlaceKeepsRegistryValid(g, game.sosLines, row, col, letter);
    PlaceFillsOneCell(g, row, col, letter);
    ok := true;
  }
}
