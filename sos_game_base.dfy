/** The state every SOS game shares: the board, the two players and whose
    turn it is, the registry of detected lines, scores and the outcome. */
module SOSGameBase {
  import opened SOSGame
  import opened Board
  import opened LineDetector

  /** The rule variant a game was created for. */
  datatype Mode = Simple | General

  /** The player who gets the turn after `current`: red after blue, blue
      after anyone else. */
  function Switched(current: Player, blue: Player, red: Player): (next: Player)
    ensures next == blue || next == red
    ensures blue != red && (current == blue || current == red) ==> next != current
  {
    if current == blue then red else blue
  }

  /** When the players sit on their own sides and the turn belongs to one of
      them, switching hands the turn to the other side, and switching twice
      gives it back. */
  lemma SwitchTwiceRestores(current: Player, blue: Player, red: Player)
    requires blue.name == Blue && red.name == Red
    requires current == blue || current == red
    ensures Switched(current, blue, red).name == current.name.Other()
    ensures Switched(Switched(current, blue, red), blue, red) == current
  {
  }

  class GameBase {
    const boardSize: nat
    const board: array2<char>
    var bluePlayer: Player
    var redPlayer: Player
    var currentPlayer: Player
    var winner: Option<Color>
    var draw: bool
    var blueScore: nat
    var redScore: nat
    const mode: Mode
    var sosLines: seq<Line>

    /** The board's contents as a value. */
    ghost function Cells(): (g: Grid)
      reads board
      ensures |g| == board.Length0
      ensures forall i :: 0 <= i < |g| ==> |g[i]| == board.Length1
      ensures forall i, j :: 0 <= i < board.Length0 && 0 <= j < board.Length1 ==> g[i][j] == board[i, j]
    {
      seq(board.Length0, i requires 0 <= i < board.Length0 reads board =>
        seq(board.Length1, j requires 0 <= j < board.Length1 reads board => board[i, j]))
    }

    /** Each player sits on the side of its name, and the turn belongs to one
        of the two. */
    ghost predicate Seated()
      reads this
    {
      bluePlayer.name == Blue && redPlayer.name == Red &&
      (currentPlayer == bluePlayer || currentPlayer == redPlayer)
    }

    ghost predicate Valid()
      reads this, board
    {
      board.Length0 == boardSize && board.Length1 == boardSize && Seated() &&
      RegistryValid(Cells(), sosLines)
    }

    constructor (boardSize: nat, bluePlayer: Player, redPlayer: Player, mode: Mode)
      requires bluePlayer.name == Blue && redPlayer.name == Red
      ensures Valid() && fresh(board)
      ensures this.boardSize == boardSize && Cells() == EmptyGrid(boardSize)
      ensures this.bluePlayer == bluePlayer && this.redPlayer == redPlayer
      ensures currentPlayer == bluePlayer && this.mode == mode
      ensures sosLines == [] && winner == None && !draw && blueScore == 0 && redScore == 0
    {
      this.boardSize := boardSize;
      this.bluePlayer := bluePlayer;
      this.redPlayer := redPlayer;
      this.currentPlayer := bluePlayer;
      this.mode := mode;
      this.board := new char[boardSize, boardSize];
      this.winner := None;
      this.draw := false;
      this.blueScore := 0;
      this.redScore := 0;
      this.sosLines := [];
      new;
      InitializeBoard();
    }

    /** Fills every cell with the empty character. */
    method InitializeBoard()
      requires board.Length0 == boardSize && board.Length1 == boardSize
      modifies board
      ensures Cells() == EmptyGrid(boardSize)
    {
      for i := 0 to boardSize
        invariant forall r, c :: 0 <= r < i && 0 <= c < boardSize ==> board[r, c] == Empty
      {
        for j := 0 to boardSize
          invariant forall r, c :: 0 <= r < i && 0 <= c < boardSize ==> board[r, c] == Empty
          invariant forall c :: 0 <= c < j ==> board[i, c] == Empty
        {
          board[i, j] := Empty;
        }
      }
      var g, e := Cells(), EmptyGrid(boardSize);
      forall i | 0 <= i < boardSize
        ensures g[i] == e[i]
      {
        assert forall j :: 0 <= j < boardSize ==> g[i][j] == e[i][j];
      }
    }

    /** Hands the turn to the other player. */
    method SwitchPlayer()
      requires Valid()
      modifies this`currentPlayer
      ensures Valid()
      ensures currentPlayer == Switched(old(currentPlayer), bluePlayer, redPlayer)
      ensures currentPlayer.name == old(currentPlayer.name).Other()
    {
      currentPlayer := if currentPlayer == bluePlayer then redPlayer else bluePlayer;
    }

    /** The player sitting on side `color`. */
    function GetPlayer(color: Color): (p: Player)
      reads this
      ensures p == bluePlayer || p == redPlayer
      ensures Seated() ==> p.name == color
    {
      if color == Blue then bluePlayer else redPlayer
    }

    /** Seats a new human or computer player on side `color`; if the turn
        belonged to that side it passes to the new player. */
    method SetPlayerType(color: Color, isComputer: bool)
      requires Valid()
      modifies this`bluePlayer, this`redPlayer, this`currentPlayer
      ensures Valid()
      ensures GetPlayer(color) == Player(color, if isComputer then Computer else Human)
      ensures GetPlayer(color.Other()) == old(GetPlayer(color.Other()))
      ensures currentPlayer == if old(currentPlayer.name) == color then GetPlayer(color) else old(currentPlayer)
    {
      if color == Blue {
        bluePlayer := Player(Blue, if isComputer then Computer else Human);
      } else {
        redPlayer := Player(Red, if isComputer then Computer else Human);
      }
      if currentPlayer.name == color {
        currentPlayer := GetPlayer(color);
      }
    }

    /** Whether the registry already holds a line joining (r1, c1) and
        (r2, c2), in either orientation. */
    method LineExists(r1: int, c1: int, r2: int, c2: int) returns (found: bool)
      ensures found == Recorded(sosLines, r1, c1, r2, c2)
    {
      found := false;
      for k := 0 to |sosLines|
        invariant forall j :: 0 <= j < k ==> !Joins(sosLines[j], r1, c1, r2, c2)
      {
        if Joins(sosLines[k], r1, c1, r2, c2) {
          found := true;
          break;
        }
      }
    }

    /** One step of the scan: if cells (r, c), (r, c) + d, (r, c) + 2d, with
        d the i-th direction, lie on the board, read S-O-S and are not yet
        recorded, appends that line credited to `who`. */
    method VisitDirection(r: int, c: int, i: nat, who: Color) returns (added: bool)
      requires board.Length0 == boardSize && board.Length1 == boardSize
      requires InBounds(boardSize, r, c) && i < 4
      modifies this`sosLines
      ensures sosLines == Visit(Cells(), old(sosLines), who, r, c, i)
      ensures |sosLines| == |old(sosLines)| + (if added then 1 else 0)
    {
      added := false;
      var d := Dir(i);
      var r2, c2, r3, c3 := r + d.0, c + d.1, r + 2 * d.0, c + 2 * d.1;
      if InBounds(boardSize, r3, c3) {
        if board[r, c] == 'S' && board[r2, c2] == 'O' && board[r3, c3] == 'S' {
          var found := LineExists(r, c, r3, c3);
          if !found {
            sosLines := sosLines + [Line(r, c, r3, c3, who)];
            added := true;
          }
        }
      }
    }

    /** The scan at cell (r, c): the four directions in order. */
    method VisitCell(r: int, c: int, who: Color) returns (added: nat)
      requires board.Length0 == boardSize && board.Length1 == boardSize
      requires InBounds(boardSize, r, c)
      modifies this`sosLines
      ensures sosLines == ScanDirs(Cells(), old(sosLines), who, r, c, 0)
      ensures added == |sosLines| - |old(sosLines)|
    {
      ghost var g := Cells();
      added := 0;
      for i := 0 to 4
        invariant ScanDirs(g, sosLines, who, r, c, i) == ScanDirs(g, old(sosLines), who, r, c, 0)
        invariant added == |sosLines| - |old(sosLines)|
      {
        var found := VisitDirection(r, c, i, who);
        if found {
          added := added + 1;
        }
      }
    }

    /** Scans the board for S-O-S lines not yet in the registry, appends each
        one credited to `player` and returns how many it appended. */
    method CountNewSOS(player: Player) returns (count: nat)
      requires Valid()
      modifies this`sosLines
      ensures Valid()
      ensures sosLines == Detect(Cells(), old(sosLines), player.name)
      ensures old(sosLines) <= sosLines && count == |sosLines| - |old(sosLines)|
      ensures forall j :: |old(sosLines)| <= j < |sosLines| ==> sosLines[j].player == player.name
    {
      ghost var g := Cells();
      ghost var start := sosLines;
      assert Square(g) && |g| == boardSize;
      var who := player.name;
      count := 0;
      for r := 0 to boardSize
        invariant ScanRows(g, sosLines, who, r) == Detect(g, start, who)
        invariant count == |sosLines| - |start|
      {
        ghost var rowStart := sosLines;
        for c := 0 to boardSize
          invariant ScanCols(g, sosLines, who, r, c) == ScanCols(g, rowStart, who, r, 0)
          invariant count == |sosLines| - |start|
        {
          var added := VisitCell(r, c, who);
          count := count + added;
        }
        assert sosLines == ScanCols(g, rowStart, who, r, 0);
      }
      assert sosLines == Detect(g, start, who);
      DetectAppendsFreshLines(g, start, who);
      DetectKeepsRegistryValid(g, start, who);
    }

    /** The shared end-of-game check: on a full board in general mode the
        strictly higher score wins, and equal scores are a draw. */
    method CheckGameStatus()
      requires Valid()
      modifies this`winner, this`draw
      ensures Valid()
      ensures !(IsFull(Cells()) && mode == General) ==> winner == old(winner) && draw == old(draw)
      ensures IsFull(Cells()) && mode == General ==>
        if blueScore > redScore then winner == Some(Blue) && draw == old(draw)
        else if redScore > blueScore then winner == Some(Red) && draw == old(draw)
        else winner == old(winner) && draw
    {
      var boardFull := true;
      for i := 0 to boardSize
        invariant boardFull
        invariant forall r, c :: 0 <= r < i && 0 <= c < boardSize ==> board[r, c] != Empty
      {
        for j := 0 to boardSize
          invariant boardFull
          invariant forall c :: 0 <= c < j ==> board[i, c] != Empty
        {
          if board[i, j] == Empty {
            boardFull := false;
            break;
          }
        }
        if !boardFull {
          break;
        }
      }
      assert boardFull <==> IsFull(Cells());
      if boardFull {
        if mode == General {
          if blueScore > redScore {
            winner := Some(Blue);
          } else if redScore > blueScore {
            winner := Some(Red);
          } else {
            draw := true;
          }
        }
      }
    }
  }
}
