/** Client code replaying the repository's unit-test scenarios
    (src/Game/SOS_Test.java) against the contracts alone. */
module Scenarios {
  import opened SOSGame
  import opened Board
  import opened LineDetector
  import opened SOSGameBase
  import opened HumanPlayer
  import opened SimpleSOSGame
  import opened GeneralSOSGame

  /** Blue plays S at (0, 0), red O at (0, 1), blue S at (0, 2). */
  method PlayTopRow(base: GameBase)
    requires base.Valid() && base.boardSize == 3 && base.Cells() == EmptyGrid(3)
    requires base.currentPlayer == base.bluePlayer
    modifies base.board, base`currentPlayer
    ensures base.Valid() && base.currentPlayer == base.bluePlayer
    ensures SOSAt(base.Cells(), 0, 0, 0)
  {
    var ok := MakeMove(base, 0, 0, 'S');
    assert ok;
    base.SwitchPlayer();
    ok := MakeMove(base, 0, 1, 'O');
    assert ok;
    base.SwitchPlayer();
    ok := MakeMove(base, 0, 2, 'S');
    assert ok;
  }

  /** Simple mode: the first line wins; a repeated scoring call finds
      nothing new. */
  method SimpleModeFirstLineWins()
  {
    var blue, red := Player(Blue, Human), Player(Red, Human);
    var game := new SimpleGame(3, blue, red);
    PlayTopRow(game.base);
    var g := game.base.Cells();
    var n := game.CheckForNewSOS();
    DetectRecordsEveryTriple(g, [], Blue);
    assert Covers(g, game.base.sosLines, 0, 0, 0);
    assert n > 0;
    assert game.base.winner == Some(Blue);
    assert game.BlueScore() == 1 && game.RedScore() == 0 && !game.IsDraw();
    DetectIdempotent(g, [], Blue, Blue);
    var again := game.CheckForNewSOS();
    assert again == 0 && game.base.winner == Some(Blue);
  }

  /** The board with S at (0, 0), S at (1, 1) and O at (2, 2). */
  function Diagonal(): (g: Grid)
    ensures Square(g) && |g| == 3
  {
    Place(Place(Place(EmptyGrid(3), 0, 0, 'S'), 1, 1, 'S'), 2, 2, 'O')
  }

  lemma DiagonalHasNoTriple()
    ensures AllCovered(Diagonal(), [])
  {
    var g := Diagonal();
    assert forall r, c :: 0 <= r < 3 && 0 <= c < 3 && g[r][c] == 'S' ==> (r, c) == (0, 0) || (r, c) == (1, 1);
    assert forall r, c :: 0 <= r < 3 && 0 <= c < 3 && g[r][c] == 'O' ==> (r, c) == (2, 2);
    forall r, c, i | 0 <= i < 4
      ensures Covers(g, [], r, c, i)
    {
    }
  }

  /** Blue plays S at (0, 0), red S at (1, 1), blue O at (2, 2). */
  method PlayDiagonal(base: GameBase)
    requires base.Valid() && base.boardSize == 3 && base.Cells() == EmptyGrid(3)
    requires base.currentPlayer == base.bluePlayer
    modifies base.board, base`currentPlayer
    ensures base.Valid() && base.currentPlayer == base.bluePlayer
    ensures base.Cells() == Diagonal()
  {
    var ok := MakeMove(base, 0, 0, 'S');
    assert ok;
    base.SwitchPlayer();
    ok := MakeMove(base, 1, 1, 'S');
    assert ok;
    base.SwitchPlayer();
    ok := MakeMove(base, 2, 2, 'O');
    assert ok;
  }

  /** Simple mode: with no S-O-S on the board there is no winner. */
  method SimpleModeNoLineNoWinner()
  {
    var blue, red := Player(Blue, Human), Player(Red, Human);
    var game := new SimpleGame(3, blue, red);
    PlayDiagonal(game.base);
    DiagonalHasNoTriple();
    DetectNothingNew(Diagonal(), [], Blue);
    var n := game.CheckForNewSOS();
    assert n == 0 && game.base.winner == None && !game.IsDraw();
  }

  /** General mode: a line adds to blue's score and does not end the game. */
  method GeneralModeContinuesAfterLine()
  {
    var blue, red := Player(Blue, Human), Player(Red, Human);
    var game := new GeneralGame(3, blue, red);
    PlayTopRow(game.base);
    var g := game.base.Cells();
    var n := game.CheckForNewSOS();
    DetectRecordsEveryTriple(g, [], Blue);
    assert Covers(g, game.base.sosLines, 0, 0, 0);
    assert n >= 1 && game.BlueScore() >= 1 && game.RedScore() == 0;
    assert game.base.winner == None && !game.base.draw;
  }

  /** One turn of a general game: the current player writes `letter` into
      the empty cell (r, c), the new lines are scored and the turn passes. */
  method PlayTurn(game: GeneralGame, r: int, c: int, letter: char)
    requires game.Valid() && game.base.winner == None && !game.base.draw
    requires InBounds(game.base.boardSize, r, c) && game.base.board[r, c] == Empty
    requires letter == 'S' || letter == 'O'
    modifies game.base.board, game.base`sosLines, game.base`blueScore, game.base`redScore,
      game.base`currentPlayer
    ensures game.Valid() && game.base.winner == None && !game.base.draw
    ensures game.base.board[r, c] == letter
    ensures forall i, j :: 0 <= i < game.base.boardSize && 0 <= j < game.base.boardSize && (i, j) != (r, c) ==>
      game.base.board[i, j] == old(game.base.board[i, j])
  {
    var ok := MakeMove(game.base, r, c, letter);
    assert ok;
    var n := game.CheckForNewSOS();
    game.base.SwitchPlayer();
  }

  /** General mode: blue and red fill a 3x3 board cell by cell, S on the
      cells whose coordinates sum to an even number and O elsewhere, scoring
      after every move; the end-of-game check then finds a winner or a draw. */
  method GeneralModeFullBoardDecides()
  {
    var blue, red := Player(Blue, Human), Player(Red, Human);
    var game := new GeneralGame(3, blue, red);
    var base := game.base;
    for r := 0 to 3
      invariant game.Valid() && base.winner == None && !base.draw
      invariant forall i, j :: 0 <= i < r && 0 <= j < 3 ==> base.board[i, j] != Empty
    {
      for c := 0 to 3
        invariant game.Valid() && base.winner == None && !base.draw
        invariant forall i, j :: 0 <= i < r && 0 <= j < 3 ==> base.board[i, j] != Empty
        invariant forall j :: 0 <= j < c ==> base.board[r, j] != Empty
      {
        if base.board[r, c] == Empty {
          PlayTurn(game, r, c, if (r + c) % 2 == 0 then 'S' else 'O');
        }
      }
    }
    assert IsFull(base.Cells());
    game.CheckGameStatus();
    assert base.winner.Some? || base.draw;
  }

  /** Rejected moves: an occupied cell, a cell off the board, a letter
      other than S and O. */
  method InvalidMovesRejected()
  {
    var blue, red := Player(Blue, Human), Player(Red, Human);
    var game := new SimpleGame(3, blue, red);
    var ok := MakeMove(game.base, 0, 0, 'S');
    assert ok;
    ok := MakeMove(game.base, 0, 0, 'O');
    assert !ok && game.base.board[0, 0] == 'S';
    ok := MakeMove(game.base, 5, 5, 'S');
    assert !ok;
    ok := MakeMove(game.base, 1, 1, 'X');
    assert !ok && game.base.board[1, 1] == Empty;
  }
}
