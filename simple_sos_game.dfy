/** The simple variant: whoever completes a line on a scoring call becomes
    the winner; scores are derived from the winner and a draw never occurs. */
module SimpleSOSGame {
  import opened SOSGame
  import opened Board
  import opened LineDetector
  import opened SOSGameBase

  /** The side credited with the most recent registry entry, if any. */
  function LastScorer(lines: seq<Line>): Option<Color>
  {
    if lines == [] then None else Some(lines[|lines| - 1].player)
  }

  class SimpleGame {
    const base: GameBase

    /** Besides the shared state invariant: the winner is whoever was credited
        with the latest line (nobody while the registry is empty), and the
        stored scores and draw flag are never touched. */
    ghost predicate Valid()
      reads this, base, base.board
    {
      base.Valid() && base.mode == Simple &&
      base.winner == LastScorer(base.sosLines) &&
      !base.draw && base.blueScore == 0 && base.redScore == 0
    }

    constructor (boardSize: nat, p1: Player, p2: Player)
      requires p1.name == Blue && p2.name == Red
      ensures Valid() && fresh(base) && fresh(base.board)
      ensures base.boardSize == boardSize && base.Cells() == EmptyGrid(boardSize)
      ensures base.bluePlayer == p1 && base.redPlayer == p2 && base.currentPlayer == p1
      ensures base.sosLines == [] && base.winner == None
    {
      base := new GameBase(boardSize, p1, p2, Simple);
    }

    /** Detects new lines on behalf of the current player; if there is at
        least one, that player becomes the winner, replacing any earlier
        winner. Returns the number of new lines. */
    method CheckForNewSOS() returns (newLines: nat)
      requires Valid()
      modifies base`sosLines, base`winner
      ensures Valid()
      ensures base.sosLines == Detect(base.Cells(), old(base.sosLines), base.currentPlayer.name)
      ensures newLines == |base.sosLines| - |old(base.sosLines)|
      ensures base.winner == if newLines > 0 then Some(base.currentPlayer.name) else old(base.winner)
    {
      newLines := base.CountNewSOS(base.currentPlayer);
      if newLines > 0 {
        base.winner := Some(base.currentPlayer.name);
      }
    }

    /** The game ends as soon as a line is made, so there is nothing to
        check: no state changes. */
    method CheckGameStatus()
      requires Valid()
      ensures Valid()
    {
    }

    /** A simple game is never drawn. */
    function IsDraw(): (d: bool)
      ensures !d
    {
      false
    }

    /** Blue's score: 1 when blue is the winner, 0 otherwise. */
    function BlueScore(): (s: nat)
      reads this, base
      ensures s <= 1
      ensures s == 1 <==> base.winner == Some(Blue)
    {
      if base.winner == Some(Blue) then 1 else 0
    }

    /** Red's score: 1 when red is the winner, 0 otherwise. */
    function RedScore(): (s: nat)
      reads this, base
      ensures s <= 1
      ensures s == 1 <==> base.winner == Some(Red)
    {
      if base.winner == Some(Red) then 1 else 0
    }

    /** At most one side has a point, and one side has a point exactly when
        some line has been found. */
    lemma ScoresExclusive()
      requires Valid()
      ensures BlueScore() + RedScore() <= 1
      ensures BlueScore() + RedScore() == 1 <==> base.sosLines != []
    {
      if base.sosLines != [] {
        var last := base.sosLines[|base.sosLines| - 1].player;
        assert base.winner == Some(last);
        assert last == Blue || last == Red;
      }
    }
  }
}
