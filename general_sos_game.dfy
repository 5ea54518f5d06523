/** The general variant: every new line adds to the score of the player who
    made it; once the board is full the higher score wins and equal scores
    are a draw. */
module GeneralSOSGame {
  import opened SOSGame
  import opened Board
  import opened LineDetector
  import opened SOSGameBase

  class GeneralGame {
    const base: GameBase

    /** Besides the shared state invariant: each side's score is the number
        of registry lines credited to it, and the game has an outcome only
        once the board is full. */
    ghost predicate Valid()
      reads this, base, base.board
    {
      base.Valid() && base.mode == General &&
      base.blueScore == Credit(base.sosLines, Blue) &&
      base.redScore == Credit(base.sosLines, Red) &&
      (base.winner.Some? || base.draw ==> IsFull(base.Cells()))
    }

    constructor (boardSize: nat, p1: Player, p2: Player)
      requires p1.name == Blue && p2.name == Red
      ensures Valid() && fresh(base) && fresh(base.board)
      ensures base.boardSize == boardSize && base.Cells() == EmptyGrid(boardSize)
      ensures base.bluePlayer == p1 && base.redPlayer == p2 && base.currentPlayer == p1
      ensures base.sosLines == [] && base.winner == None && !base.draw
      ensures base.blueScore == 0 && base.redScore == 0
    {
      base := new GameBase(boardSize, p1, p2, General);
    }

    /** Detects new lines on behalf of the current player and adds their
        number to that player's score; the other score, the winner and the
        draw flag are unchanged. Returns the number of new lines. */
    method CheckForNewSOS() returns (newLines: nat)
      requires Valid()
      modifies base`sosLines, base`blueScore, base`redScore
      ensures Valid()
      ensures base.sosLines == Detect(base.Cells(), old(base.sosLines), base.currentPlayer.name)
      ensures newLines == |base.sosLines| - |old(base.sosLines)|
      ensures base.currentPlayer.name == Blue ==>
        base.blueScore == old(base.blueScore) + newLines && base.redScore == old(base.redScore)
      ensures base.currentPlayer.name == Red ==>
        base.redScore == old(base.redScore) + newLines && base.blueScore == old(base.blueScore)
    {
      newLines := base.CountNewSOS(base.currentPlayer);
      if base.currentPlayer.name == Blue {
        base.blueScore := base.blueScore + newLines;
      } else {
        base.redScore := base.redScore + newLines;
      }
      DetectCredits(base.Cells(), old(base.sosLines), base.currentPlayer.name);
    }

    /** On a full board: a draw exactly when the scores are equal, and
        otherwise the strictly higher scorer wins. Changes nothing while a
        cell is still empty. */
    method CheckGameStatus()
      requires Valid()
      modifies base`winner, base`draw
      ensures Valid()
      ensures !IsFull(base.Cells()) ==> base.winner == old(base.winner) && base.draw == old(base.draw)
      ensures IsFull(base.Cells()) ==> base.draw == (base.blueScore == base.redScore)
      ensures IsFull(base.Cells()) ==>
        base.winner == (if base.blueScore > base.redScore then Some(Blue)
                        else if base.redScore > base.blueScore then Some(Red)
                        else old(base.winner))
    {
      var full := IsBoardFull();
      if full {
        base.draw := base.blueScore == base.redScore;
        if !base.draw {
          base.winner := if base.blueScore > base.redScore then Some(Blue) else Some(Red);
        }
      }
    }

    /** Whether no cell of the board is empty. */
    method IsBoardFull() returns (full: bool)
      requires Valid()
      ensures full == IsFull(base.Cells())
      ensures full <==> EmptyCells(base.Cells()) == {}
    {
      FullIffNoEmptyCell(base.Cells());
      for i := 0 to base.boardSize
        invariant forall r, c :: 0 <= r < i && 0 <= c < base.boardSize ==> base.board[r, c] != Empty
      {
        for j := 0 to base.boardSize
          invariant forall c :: 0 <= c < j ==> base.board[i, c] != Empty
        {
          if base.board[i, j] == Empty {
            return false;
          }
        }
      }
      return true;
    }

    /** Blue's score is the number of registry lines credited to blue. */
    function BlueScore(): (s: nat)
      reads this, base, base.board
      requires Valid()
      ensures s == Credit(base.sosLines, Blue)
    {
      base.blueScore
    }

    /** Red's score is the number of registry lines credited to red. */
    function RedScore(): (s: nat)
      reads this, base, base.board
      requires Valid()
      ensures s == Credit(base.sosLines, Red)
    {
      base.redScore
    }

    /** Together the two scores count every line in the registry. */
    lemma ScoresCountRegistry()
      requires Valid()
      ensures BlueScore() + RedScore() == |base.sosLines|
    {
      CreditSplits(base.sosLines);
    }
  }
}
