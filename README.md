# SOS game engine, modelled in Dafny

This project models the game-state engine of a two-player SOS board game on
an N×N grid. The players, Blue and Red, take turns writing `S` or `O` into
empty cells. The engine covers:

- validating and applying a human player's move;
- finding the S-O-S lines on the board along four directions;
- keeping an append-only registry of the lines found, each credited to a player;
- the two rule variants that sit on top of the detector.

In the simple variant, a scoring call makes the current player the winner.
In the general variant, every new line adds to the current player's score.
Once the board is full, the higher score wins and equal scores are a draw.

Layout, one module per source file plus two value modules:

- `sos_game.dfy`, module `SOSGame`: the sides (`Color`), the players
  (`Player`, whose `name` field is what `getName` returns) and the immutable
  `Line` record. These come from `src/Game/SOSGame.java`.
- `board.dfy`, module `Board`: the board as a value (`Grid`). It gives the
  vocabulary the contracts use: placing a letter, the empty cells, fullness.
- `line_detector.dfy`, module `LineDetector`: the detector as a pure function.
  `Detect(g, lines, who)` is the registry after one `countNewSOS` call. It
  visits the cells row by row and, at each cell, the four directions in
  order, as the source's loops do. The lemmas about the detector live here.
- `sos_game_base.dfy`, module `SOSGameBase`: class `GameBase`. It holds the
  board as an `array2<char>`, the players, the turn, the registry, the scores,
  the winner and the draw flag. Its methods update these in place.
- `human_player.dfy`, module `HumanPlayer`: `MakeMove`, which writes into the
  game's board.
- `simple_sos_game.dfy` and `general_sos_game.dfy`: classes `SimpleGame` and
  `GeneralGame`. Each holds a `GameBase` and implements that variant's
  scoring and end-of-game rules.
- `scenarios.dfy`: client code that replays the unit-test scenarios of
  `src/Game/SOS_Test.java`, using only the contracts.

Invariants the model keeps (the `Valid()` predicates):

- `GameBase`: the board is `boardSize`×`boardSize`. Blue's player is named
  Blue and Red's is named Red. The turn belongs to one of the two.
- `GameBase`: every registry entry is an S-O-S line on the current board, and
  no two entries join the same pair of cells.
- `GeneralGame`: each score equals the number of registry lines credited to
  that side. A winner or a draw exists only when the board is full.
- `SimpleGame`: the winner is the side credited with the latest registry
  line, or nobody while the registry is empty.

## Model

| member | source | states |
|---|---|---|
| `SOSGameBase.GameBase.constructor` | src/Game/SOSGameBase.java:14-33 | The new game has a `boardSize`×`boardSize` board with every cell empty. Blue has the turn, the registry is empty, there is no winner and no draw, and both scores are 0. |
| `SOSGameBase.GameBase.InitializeBoard` | src/Game/SOSGameBase.java:35-39 | After the nested loops, every cell of the board holds `' '`. |
| `Board.EmptyGrid` | src/Game/SOSGameBase.java:31-38 | A fresh board has size n×n and every cell is empty. |
| `SOSGameBase.GameBase.SwitchPlayer` | src/Game/SOSGameBase.java:47-49 | The turn moves from Blue's player to Red's, and from anyone else to Blue's. The name of the player holding the turn flips. Nothing else changes. |
| `SOSGameBase.SwitchTwiceRestores` | src/Game/SOSGameBase.java:47-49 | When the turn belongs to one of the two seated players, one switch gives it to the other side and two switches give it back. |
| `SOSGameBase.GameBase.GetPlayer` | src/Game/SOSGameBase.java:51-53 | Returns one of the two seated players, and the one named `color` while the seats are consistent. |
| `SOSGameBase.GameBase.SetPlayerType` | src/Game/SOSGameBase.java:55-63 | Only the seat of `color` changes: it gets a new human or computer player named `color`. The other seat stays as it was. If the turn was `color`'s, it passes to the new player, so the turn still belongs to one of the two seated players. |
| `LineDetector.Dir` | src/Game/SOSGameBase.java:74-79 | The body lists the four scan directions (0,1), (1,0), (1,1) and (1,-1) in source order. The contract only bounds them: none is zero, each row step is 0 or 1, and each column step is between -1 and 1, so the middle cell of a triple whose far end is on the board is on the board too. |
| `Board.InBounds` | src/Game/SOSGameBase.java:140-142 | (r, c) lies on an n×n board: both coordinates are between 0 and n-1. It has no contract of its own; `VisitDirection` and `MakeMove` rely on it before any cell is read. |
| `SOSGameBase.Switched` | src/Game/SOSGameBase.java:48 | The next player is always one of the two seated players, and it differs from the current one whenever the current one is seated and the seats differ. |
| `LineDetector.Joins` | src/Game/SOSGameBase.java:94-97 | A registry entry joins two cells when its start and end are those cells, in either order. It has no contract of its own; `RecordedEitherOrientation` states its symmetry. |
| `LineDetector.Recorded` | src/Game/SOSGameBase.java:92-101 | Some registry entry joins the two cells. It has no contract of its own; `LineExists` is proved equal to it. |
| `LineDetector.RecordedEitherOrientation` | src/Game/SOSGameBase.java:94-97 | Whether a pair of cells is recorded does not depend on which end is named first. |
| `LineDetector.Visit` | src/Game/SOSGameBase.java:84-105 | One step of the scan, for one cell and one direction: if the far endpoint is on the board, the three cells read S-O-S and the pair is not yet recorded, the registry gets that line, credited to the scanning player. It has no contract of its own; `VisitExtends` states that it only appends fresh, credited S-O-S lines. |
| `LineDetector.ScanDirs` | src/Game/SOSGameBase.java:83-108 | The four directions at one cell, in source order, applied one after another to the registry. It has no contract of its own; its properties are `ScanDirsExtends`, `ScanDirsCovers` and `ScanDirsNoNew`. |
| `LineDetector.ScanCols` | src/Game/SOSGameBase.java:82-109 | The cells of one row, left to right, each scanned by `ScanDirs`. It has no contract of its own; its properties are `ScanColsExtends`, `ScanColsCovers` and `ScanColsNoNew`. |
| `LineDetector.ScanRows` | src/Game/SOSGameBase.java:81-110 | The rows of the board, top to bottom, each scanned by `ScanCols`. It has no contract of its own; its properties are `ScanRowsExtends`, `ScanRowsCovers` and `ScanRowsNoNew`. |
| `LineDetector.Detect` | src/Game/SOSGameBase.java:72-113 | The registry after one `countNewSOS` call: rows, then columns, then the four directions in source order. It has no contract of its own; its properties are the `Detect*` lemmas below, and `CountNewSOS` is proved equal to it. |
| `SOSGameBase.GameBase.LineExists` | src/Game/SOSGameBase.java:91-101 | The result is true exactly when some registry entry joins the two cells, in either orientation. |
| `SOSGameBase.GameBase.VisitDirection` | src/Game/SOSGameBase.java:84-106 | One scan step is one step of `Detect`: an in-bounds, not-yet-recorded S-O-S line is appended, and nothing else is. The middle cell is read only after the far endpoint was found in bounds. |
| `SOSGameBase.GameBase.VisitCell` | src/Game/SOSGameBase.java:83-108 | Scanning one cell in the four directions, in order, appends what `Detect` appends there. The result is the number of entries appended. |
| `SOSGameBase.GameBase.CountNewSOS` | src/Game/SOSGameBase.java:72-113 | The new registry is `Detect` of the board and the old registry. The old registry is a prefix of it. The result is the number of entries appended, and each one is credited to `player`. The board and every other field are untouched, and the registry invariant is kept. |
| `LineDetector.DetectAppendsFreshLines` | src/Game/SOSGameBase.java:81-105 | A detector call only appends. Each appended line starts at an in-bounds S-O-S triple along one of the four directions and ends at its far endpoint. It is credited to the scanning player, and no earlier entry joins its endpoints in either orientation. |
| `LineDetector.DetectRecordsEveryTriple` | src/Game/SOSGameBase.java:81-105 | After a call, every S-O-S triple on the board, along any of the four directions, is recorded in the registry. |
| `LineDetector.DetectNothingNew` | src/Game/SOSGameBase.java:91-105 | A registry that already records every triple on the board comes back unchanged. |
| `LineDetector.DetectIdempotent` | src/Game/SOSGameBase.java:91-105 | A second call with no move in between appends nothing and returns 0, whoever makes it. |
| `LineDetector.DetectKeepsRegistryValid` | src/Game/SOSGameBase.java:91-105 | If every entry is an S-O-S line of the board and no endpoint pair appears twice, that still holds after a call. |
| `LineDetector.RegistryHasNoDuplicates` | src/Game/SOSGameBase.java:91-105 | In a valid registry, no two entries join the same pair of cells. |
| `LineDetector.PlaceKeepsSOS` | src/Game/SOSGame.java:35-41 | Writing into an empty cell cannot disturb an S-O-S triple, because its three cells are not empty. |
| `LineDetector.PlaceKeepsRegistryValid` | src/Game/SOSGame.java:35-41 | A move into an empty cell keeps every recorded line an S-O-S line on the board. |
| `LineDetector.CreditSplits` | src/Game/GeneralSOSGame.java:13-17 | Every registry entry is credited to exactly one side, so the two sides' credits add up to the registry's length. |
| `LineDetector.CreditAppend` | src/Game/GeneralSOSGame.java:13-17 | Appending entries that are all credited to one side raises that side's credit by their number and leaves the other side's unchanged. |
| `LineDetector.DetectCredits` | src/Game/GeneralSOSGame.java:11-17 | The lines a call finds all go to the scanning side's credit. The other side's credit does not change. |
| `SOSGameBase.GameBase.CheckGameStatus` | src/Game/SOSGameBase.java:115-138 | If the board is not full or the mode is not general, the winner and the draw flag are unchanged. Otherwise the strictly higher score's side becomes the winner. On equal scores the draw flag becomes true and the winner is left as it was. |
| `Board.Place` | src/Game/SOSGame.java:40 | Writing a letter changes cell (row, col) to the letter and no other cell. |
| `HumanPlayer.Legal` | src/Game/SOSGame.java:33-38 | A move is accepted exactly when the cell is on the board, the cell is empty and the letter is `S` or `O`. It has no contract of its own; `MakeMove` is proved to succeed exactly when it holds. |
| `HumanPlayer.MakeMove` | src/Game/SOSGame.java:32-42 | The move succeeds exactly when (row, col) is on the board, the cell is empty and the letter is `S` or `O`. On success exactly that cell changes and one fewer cell is empty. On failure the board is unchanged. The bounds are checked before the cell is read, and the registry invariant is kept. |
| `Board.PlaceFillsOneCell` | src/Game/SOSGame.java:35-41 | Writing a letter into an empty cell removes exactly that cell from the set of empty cells, so their number drops by one. |
| `Board.FullIffNoEmptyCell` | src/Game/GeneralSOSGame.java:44-49 | The board is full exactly when the set of empty cells is empty. |
| `SimpleSOSGame.SimpleGame.constructor` | src/Game/SimpleSOSGame.java:5-7 | A fresh game in simple mode: empty board, Blue to move, empty registry, no winner. |
| `SimpleSOSGame.SimpleGame.CheckForNewSOS` | src/Game/SimpleSOSGame.java:10-16 | The registry grows as `Detect` says, and the result is the number of new lines. With at least one new line, the current player becomes the winner, replacing any earlier winner. With none, the winner is unchanged. The invariant "winner = side of the latest line" is kept. |
| `SimpleSOSGame.SimpleGame.CheckGameStatus` | src/Game/SimpleSOSGame.java:19-21 | Changes no state: it has no modifies clause and keeps the invariant. |
| `SimpleSOSGame.SimpleGame.IsDraw` | src/Game/SimpleSOSGame.java:27 | A simple game never reports a draw. |
| `SimpleSOSGame.SimpleGame.BlueScore` | src/Game/SimpleSOSGame.java:30-32 | Blue's score is at most 1, and it is 1 exactly when Blue is the winner. |
| `SimpleSOSGame.SimpleGame.RedScore` | src/Game/SimpleSOSGame.java:35-37 | Red's score is at most 1, and it is 1 exactly when Red is the winner. |
| `SimpleSOSGame.SimpleGame.ScoresExclusive` | src/Game/SimpleSOSGame.java:12-37 | The two scores are never both 1. One side has a point exactly when some line has been found. |
| `GeneralSOSGame.GeneralGame.constructor` | src/Game/GeneralSOSGame.java:5-7 | A fresh game in general mode: empty board, Blue to move, empty registry, no winner, no draw, both scores 0. |
| `GeneralSOSGame.GeneralGame.CheckForNewSOS` | src/Game/GeneralSOSGame.java:10-20 | The registry grows as `Detect` says, and the result is the number of new lines. That number is added to the current player's score. The other score, the winner and the draw flag are unchanged, so both scores never decrease. Each score stays equal to the number of lines credited to that side. |
| `GeneralSOSGame.GeneralGame.IsBoardFull` | src/Game/GeneralSOSGame.java:44-49 | The result is true exactly when no cell is empty, which by `FullIffNoEmptyCell` is exactly when the set of empty cells is empty. |
| `GeneralSOSGame.GeneralGame.CheckGameStatus` | src/Game/GeneralSOSGame.java:23-30 | On a board with an empty cell, nothing changes. On a full board, draw is set exactly when the scores are equal. With unequal scores the strictly higher scorer becomes the winner; with equal scores the winner is left as it was. |
| `GeneralSOSGame.GeneralGame.BlueScore` | src/Game/GeneralSOSGame.java:39 | Blue's score is the number of registry lines credited to Blue. |
| `GeneralSOSGame.GeneralGame.RedScore` | src/Game/GeneralSOSGame.java:42 | Red's score is the number of registry lines credited to Red. |
| `GeneralSOSGame.GeneralGame.ScoresCountRegistry` | src/Game/GeneralSOSGame.java:10-20 | Together the two scores count every line in the registry. |
| `Scenarios.PlayTopRow` | src/Game/SOS_Test.java:117-122 | After Blue plays S, Red plays O and Blue plays S along the top row of a fresh 3×3 board, that row holds an S-O-S triple and Blue has the turn. |
| `Scenarios.PlayTurn` | src/Game/SOS_Test.java:242-246 | One turn of a general game: the current player writes a letter into an empty cell, the new lines are scored and the turn passes. Exactly that cell changes, the invariant is kept and the game stays undecided. |
| `Scenarios.DiagonalHasNoTriple` | src/Game/SOS_Test.java:199-206 | The board with S, S, O down the main diagonal holds no S-O-S triple, so a scoring call on it finds nothing. |

The helper lemmas `LineDetector.ExtendsTrans`, `VisitExtends`,
`ScanDirsExtends`, `ScanColsExtends`, `ScanRowsExtends`, `CoversPersists`,
`ScanDirsCovers`, `ScanColsCovers`, `ScanRowsCovers`, `ScanDirsNoNew`,
`ScanColsNoNew` and `ScanRowsNoNew` are the inductive steps of the lemmas
above. `Scenarios.PlayDiagonal` and `Scenarios.Diagonal` set up the board
for `DiagonalHasNoTriple`. The methods `SimpleModeFirstLineWins`,
`SimpleModeNoLineNoWinner`, `GeneralModeContinuesAfterLine`,
`GeneralModeFullBoardDecides` and `InvalidMovesRejected` replay the
assertions of `src/Game/SOS_Test.java`, lines 110-254.
`GeneralModeFullBoardDecides` fills a 3×3 general board with the test's
loops and shows that the end-of-game check then finds a winner or a draw.

## Left out

- The Swing user interface (`src/Game/SOS_GUI.java`) is not part of this model.
  This covers the setup screens, painting, dialogs and the timer that drives
  computer turns. It also covers that file's direct writes into the board,
  which bypass move validation. In the model, only `MakeMove` writes to the
  board.
- The computer opponent (`ComputerPlayer`, its move search and evaluator, and
  the random shuffle) is not defined in any modelled source file. A computer
  player appears only as the `Computer` kind that `SetPlayerType` seats.
- Player names are the two sides `Blue` and `Red`, not arbitrary strings.
  The `"Blue"` test in `checkForNewSOS` and `getPlayer` therefore becomes a
  comparison of sides. The mode strings `"simple"` and `"general"` become the
  `Mode` enum.
- `SOSGameBase.GameBase.constructor` requires the players to be named after
  their seats: Blue's player "Blue" and Red's player "Red". Every caller in
  the repository does this. Without it, `setPlayerType` could leave the turn
  with a player who is no longer seated.
- Java object identity in `switchPlayer` is modelled as value equality of
  the immutable `Player` values. This behaves the same for every
  sequence of calls.
- `CountNewSOS` keeps the source's triple loop and the inner registry
  search. The direction loop is the separate method `VisitCell`, and its
  body is `VisitDirection`, so that each proof stays small.
- The variants hold a `GameBase` instead of inheriting from it. The base
  class's `checkGameStatus` (`src/Game/SOSGameBase.java:115-138`) is
  modelled as written, as `GameBase.CheckGameStatus`, although no caller in
  the repository reaches it: the base class is abstract and both variants
  override the method without calling the base version.
- Composition lets a client call `game.base.CheckGameStatus()` on either
  variant, which Java's dynamic dispatch never does. On a full general
  board with unequal scores that call leaves `draw` as it was, whereas the
  general variant's override sets it to false. The model does not rule
  out such a call.
- The plain getters (`getBoardSize`, `getBoard`, `getCurrentPlayer`,
  `getSOSLines`, `getGameMode`, `getWinner`, and `isDraw` of the general
  variant) are reads of the corresponding fields. `inBounds` is the predicate
  `Board.InBounds`.
- Integers are unbounded. A negative board size, which makes Java throw on
  allocation, is excluded by the `nat` parameter. 32-bit overflow of the
  scores and coordinates is not modelled: a game has at most 4·N² lines.
