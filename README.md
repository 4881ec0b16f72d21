# Board-game rule engines

This project models the rule engines of three turn-based games from a mobile
games app, and proves properties of each model. The engines are:

- **Checkers** (`CheckersViewModel`). An 8 by 8 board of squares. Each square
  holds a piece and a highlight flag. The engine also keeps the side to move,
  an optional winner and an accumulated list of possible moves. It sets up
  the board and generates diagonal steps and single jumps: men move forward
  only, kings both ways. It carries out a move, with promotion and capture,
  and switches sides; a side left without moves loses. Taps drive selection,
  and player two is played by the computer.
- **Tic-Tac-Toe** (`TicTacToeViewModel`). A 3 by 3 board of marks. The engine
  keeps the mark to move, the winner, a game-over flag, the recorded winning
  line and whether the bot is playing. The victory test checks eight fixed
  lines. The bot plays O: it tries to win, then to block, then plays at random.
- **Connect Four** (the board logic of `ConnectFourView`). A 6 by 7 board of
  optional players. Tokens fall to the lowest empty cell of a column. A win
  is four in a row through the cell just filled, found by a counting scan
  over offsets -3 to 3 in four directions. The computer plays yellow and
  picks a random non-full column.

Each engine is a Dafny `class` (`checkers.dfy`, `tictactoe.dfy`,
`connectfour.dfy`). Its fields are those of the Swift view model. The Swift
boards are nested arrays, which Swift treats as values, so each board is a
`seq<seq<…>>` field. A method writes a square by reassigning that field with
the one-cell update `Grids.Set`. Checkers' `WithPiece` does the same for
`board[r][c].piece = x`.

Each method has the loops and branches of the Swift function it models. Its
postcondition ties the new state to pure functions of the old state, such as
`AfterMove`, `AllMoves`, `FirstWinningCell`, `AvailableSpaces`, `DropRow`
and `FourInLine`. Lemmas then prove what the engine promises about those
functions: exact move generation, layout counts, effects of a move, the
shape of a win, and gravity.

Things the model represents differently:

- **Randomness.** Where the Swift code calls `randomElement()`, the model
  takes a parameter `pick`, an index into the same candidate list.
- **Delayed callbacks.** A callback run after a delay becomes an ordinary
  method (`ComputerMove`, `BotMove`, `AIMove`). The method that would
  schedule the callback returns a boolean saying whether it is scheduled.
- **Crashes.** An index that would crash the Swift code is excluded by a
  precondition.

## Model

| member | source | states |
|---|---|---|
| Checkers.ValidPositionIsOnBoard | Games/PlayingGames/Checkers/CheckersView.swift:156-158 | the bounds test accepts exactly the positions that index a square of the board |
| Checkers.CanMovePieceAt | Games/PlayingGames/Checkers/CheckersView.swift:74-80 | for either player, true exactly when the square holds that player's man or king; never true for an empty square |
| Checkers.InitialLayout | Games/PlayingGames/Checkers/CheckersView.swift:36-51 | the starting board has 12 men of each side and no kings; no square is highlighted; pieces stand only on dark squares ((i+j) odd); player two's men are in rows 0-2 and player one's in rows 5-7, so rows 3-4 are empty |
| Checkers.CountAfterSet | Games/PlayingGames/Checkers/CheckersView.swift:84-96 | writing one square changes the count of a piece kind by exactly what that square gained or lost |
| Checkers.StepMoveExactly | Games/PlayingGames/Checkers/CheckersView.swift:138-144 | a step in direction d is offered exactly when it satisfies the rules and lands one square along d |
| Checkers.JumpMoveExactly | Games/PlayingGames/Checkers/CheckersView.swift:139-151 | a jump in direction d is offered exactly when it satisfies the rules and lands two squares along d |
| Checkers.JumpMoveInOrder | Games/PlayingGames/Checkers/CheckersView.swift:145-151 | the square passed over is on the board whenever the landing square is, so the engine reads it without a bounds test; the jump is offered after the landing test, then the passed-over piece test, then the direction test, nested in that order |
| Checkers.DirectionMovesExactly | Games/PlayingGames/Checkers/CheckersView.swift:137-153 | one direction's moves are exactly the rule-satisfying moves one or two squares along it |
| Checkers.MovesFromExactly | Games/PlayingGames/Checkers/CheckersView.swift:133-154 | a move is generated from p if and only if it satisfies the rules: from p, onto an empty square on the board, both offsets ±1 or both ±2, in an allowed direction, and a jump must pass over a non-empty square of a different kind |
| Checkers.MovesFromComplete | Games/PlayingGames/Checkers/CheckersView.swift:133-154 | every move satisfying the rules is generated from its square |
| Checkers.MovesFromSound | Games/PlayingGames/Checkers/CheckersView.swift:133-154 | every generated move satisfies the rules |
| Checkers.MovesFromInBounds | Games/PlayingGames/Checkers/CheckersView.swift:133-158 | every generated move starts and ends on the board |
| Checkers.MovesFromIgnoresHighlights | Games/PlayingGames/Checkers/CheckersView.swift:133-154 | two boards with the same pieces generate the same moves, whatever their highlights |
| Checkers.MenMoveForward | Games/PlayingGames/Checkers/CheckersView.swift:136-148 | a move is generated only from a piece; a player-one man always moves up the board (to a lower row) and a player-two man always moves down |
| Checkers.SameSideCapture | Games/PlayingGames/Checkers/CheckersView.swift:145-150 | a concrete board on which a player-one man is offered a jump over a player-one king, because the capture test compares exact piece kinds |
| Checkers.AllMovesExactly | Games/PlayingGames/Checkers/CheckersView.swift:122-131 | a side's move list contains a move if and only if the move starts on a square holding that side's man or king and satisfies the rules |
| Checkers.AllMovesInBounds | Games/PlayingGames/Checkers/CheckersView.swift:122-131 | every move in a side's list stays on the board |
| Checkers.ExecuteMoveEffects | Games/PlayingGames/Checkers/CheckersView.swift:82-97 | for a generated move: the origin becomes empty; the destination holds the mover, crowned when a man reaches the far row; a jump empties the square passed over, which held a non-empty piece of a different kind; every other square and every highlight is unchanged |
| Checkers.GeneratedShape | Games/PlayingGames/Checkers/CheckersView.swift:133-154 | a generated move joins two distinct squares; it starts on a piece and ends on an empty square; a jump's midpoint is a third square holding a piece of a different kind |
| Checkers.AfterMoveAsWrites | Games/PlayingGames/Checkers/CheckersView.swift:83-96 | the board after a move is the engine's writes in order: empty the origin, place the (possibly crowned) mover, then empty the midpoint of a jump |
| Checkers.CaptureRemovesOnePiece | Games/PlayingGames/Checkers/CheckersView.swift:93-97 | a step keeps the number of pieces; a jump removes exactly one |
| Checkers.FirstMoveTo | Games/PlayingGames/Checkers/CheckersView.swift:60 | finds nothing exactly when no listed move ends on the tapped square; otherwise it returns the first listed move that does |
| Checkers.CheckersViewModel.constructor | Games/PlayingGames/Checkers/CheckersView.swift:27-34 | a new game: the starting board, player one to move, no winner, no moves listed |
| Checkers.CheckersViewModel.SetupBoard | Games/PlayingGames/Checkers/CheckersView.swift:36-51 | the board becomes the starting board; no winner; player one to move; the move list is left as it was |
| Checkers.CheckersViewModel.CalculateMoves | Games/PlayingGames/Checkers/CheckersView.swift:133-154 | the moves generated from the square are appended to the move list; nothing is cleared |
| Checkers.CheckersViewModel.CalculateAllPossibleMoves | Games/PlayingGames/Checkers/CheckersView.swift:122-131 | the move list becomes exactly the moves of every man and king of the side to move |
| Checkers.CheckersViewModel.ExecuteMove | Games/PlayingGames/Checkers/CheckersView.swift:82-99 | the board becomes the board after the move; the move list is emptied; side to move, winner and highlights are untouched |
| Checkers.CheckersViewModel.SwitchPlayer | Games/PlayingGames/Checkers/CheckersView.swift:101-107 | the other side is to move and its moves are listed; the previous side is recorded as winner if and only if that list is empty; the board is untouched |
| Checkers.CheckersViewModel.ClearHighlights | Games/PlayingGames/Checkers/CheckersView.swift:160-166 | every highlight is switched off; the pieces are unchanged |
| Checkers.CheckersViewModel.HighlightMoves | Games/PlayingGames/Checkers/CheckersView.swift:168-172 | the destination of every listed move is highlighted; nothing else changes |
| Checkers.CheckersViewModel.TapSquare | Games/PlayingGames/Checkers/CheckersView.swift:53-72 | once there is a winner, nothing changes. On a highlighted square with a listed move ending there, the first such move is carried out, the turn passes, and the computer's reply is scheduled when player two is to move. On a highlighted square with no such move, nothing changes. On any other square, the highlights are cleared; if the square holds a piece of the side to move, its moves are appended to the list and every listed destination is highlighted |
| Checkers.CheckersViewModel.ComputerMove | Games/PlayingGames/Checkers/CheckersView.swift:109-120 | the computer's reply: with no listed move, only the turn passes; otherwise the picked listed move is carried out and the turn passes |
| ConnectFour.Other | Games/PlayingGames/ConnectFour/ConnectFourView.swift:89 | the turn always passes to the other colour |
| ConnectFour.EmptyBoardIsEmpty | Games/PlayingGames/ConnectFour/ConnectFourView.swift:153 | the restart board has every cell empty and satisfies gravity |
| ConnectFour.DropRowFrom | Games/PlayingGames/ConnectFour/ConnectFourView.swift:83-85 | scanning a column from the bottom row upwards finds the lowest empty cell; every cell below it is occupied; nothing is found only when the column is full |
| ConnectFour.DropUnderGravity | Games/PlayingGames/ConnectFour/ConnectFourView.swift:83-85 | under gravity, a column is full exactly when its top cell is occupied; the landing cell lies under empty cells and on occupied ones; filling it keeps gravity |
| ConnectFour.OpenColumnsUpTo | Games/PlayingGames/ConnectFour/ConnectFourView.swift:102-107 | lists exactly the columns whose top cell is empty, in increasing order |
| ConnectFour.ScaledIsProduct | Games/PlayingGames/ConnectFour/ConnectFourView.swift:125-126 | the offset along a direction is the product i * d |
| ConnectFour.RunMeansMatches | Games/PlayingGames/ConnectFour/ConnectFourView.swift:122-136 | the scan's counter reaches n at offset i if and only if the n offsets ending at i lie inside the window and all hold the value of the starting cell |
| ConnectFour.RunOfFourWins | Games/PlayingGames/ConnectFour/ConnectFourView.swift:129-131 | a counter that reaches four has found four in a line |
| ConnectFour.ShortRunsDoNotWin | Games/PlayingGames/ConnectFour/ConnectFourView.swift:133-138 | a counter that stays below four over the whole window means there is no four in a line |
| ConnectFour.WindowIsFourCells | Games/PlayingGames/ConnectFour/ConnectFourView.swift:124-128 | four matching scan offsets are exactly four board cells, at i * (dr, dc), that hold the starting cell's value |
| ConnectFour.FourInLineIsFourCells | Games/PlayingGames/ConnectFour/ConnectFourView.swift:120-139 | the scan's verdict holds if and only if four consecutive cells on the line hold the starting cell's value and the four include the starting cell, so three in a row never counts |
| ConnectFour.ConnectFourGame.constructor | Games/PlayingGames/ConnectFour/ConnectFourView.swift:16-19 | an empty board, red to move, no winner, computer enabled |
| ConnectFour.ConnectFourGame.RestartGame | Games/PlayingGames/ConnectFour/ConnectFourView.swift:152-156 | an empty board, red to move, no winner; the computer setting is kept |
| ConnectFour.ConnectFourGame.SetAIEnabled | Games/PlayingGames/ConnectFour/ConnectFourView.swift:54-56 | the "Play against AI" toggle sets the computer setting |
| ConnectFour.ConnectFourGame.CheckDirection | Games/PlayingGames/ConnectFour/ConnectFourView.swift:120-139 | true if and only if four consecutive offsets in -3..3 along the direction are on the board and hold the value of the starting cell |
| ConnectFour.ConnectFourGame.CheckForWin | Games/PlayingGames/ConnectFour/ConnectFourView.swift:113-118 | true if and only if there is four in a line through the cell horizontally, vertically or on either diagonal |
| ConnectFour.ConnectFourGame.CheckForDraw | Games/PlayingGames/ConnectFour/ConnectFourView.swift:141-150 | true if and only if no cell is empty |
| ConnectFour.ConnectFourGame.PlacePiece | Games/PlayingGames/ConnectFour/ConnectFourView.swift:82-99 | on a full column nothing changes. Otherwise exactly the lowest empty cell of the column gets the colour to move, and gravity is kept. A win records that colour as winner and keeps the turn; otherwise the turn passes, and the computer is scheduled when yellow is to move and the computer is enabled |
| ConnectFour.ConnectFourGame.AIMove | Games/PlayingGames/ConnectFour/ConnectFourView.swift:101-111 | drops only into a picked column whose top cell is empty, with the effect of PlacePiece; does nothing when every column is full |
| ConnectFour.ConnectFourGame.Tap | Games/PlayingGames/ConnectFour/ConnectFourView.swift:34-38 | a tap is ignored on an occupied cell or once there is a winner; otherwise it drops a token into the tapped column, which always lands |
| TicTacToe.Other | Games/PlayingGames/TicTacToe/TicTacToeView.swift:166 | X passes the turn to O and any other mark passes it to X; between X and O the turn always alternates |
| TicTacToe.FirstLineFrom | Games/PlayingGames/TicTacToe/TicTacToeView.swift:181-188 | finds the first line, from a given index on, that is all one mark; finds nothing exactly when no such line exists |
| TicTacToe.FirstLine | Games/PlayingGames/TicTacToe/TicTacToeView.swift:181-188 | finds nothing exactly when no line is all the mark; otherwise the first line of the fixed order that is |
| TicTacToe.HasLineIsThreeInARow | Games/PlayingGames/TicTacToe/TicTacToeView.swift:171-180 | the eight fixed lines are exactly the three rows, the three columns and the two diagonals |
| TicTacToe.FirstInRowExactly | Games/PlayingGames/TicTacToe/TicTacToeView.swift:126-139 | within a row, the search settles on the first empty square whose filling completes a line, and on none only if no square does |
| TicTacToe.FirstFromRowExactly | Games/PlayingGames/TicTacToe/TicTacToeView.swift:125-141 | from a row on, the search settles on the first completing square in row-major order, and on none only if no square does |
| TicTacToe.FirstWinningCellExactly | Games/PlayingGames/TicTacToe/TicTacToeView.swift:124-143 | the bot's search settles on the first empty square in row-major order whose filling completes a line, and on none exactly when no empty square does |
| TicTacToe.RowSpacesExactly | Games/PlayingGames/TicTacToe/TicTacToeView.swift:148-152 | a row contributes exactly its empty squares |
| TicTacToe.SpacesUpToExactly | Games/PlayingGames/TicTacToe/TicTacToeView.swift:146-153 | the first n rows contribute exactly their empty squares |
| TicTacToe.AvailableSpacesExactly | Games/PlayingGames/TicTacToe/TicTacToeView.swift:146-153 | the random move chooses from exactly the empty squares |
| TicTacToe.RowSpacesDistinct | Games/PlayingGames/TicTacToe/TicTacToeView.swift:148-152 | no square of a row is listed twice |
| TicTacToe.SpacesUpToDistinct | Games/PlayingGames/TicTacToe/TicTacToeView.swift:146-153 | no empty square is listed twice |
| TicTacToe.DrawIsNotDetected | Games/PlayingGames/TicTacToe/TicTacToeView.swift:161-168 | a full board with no line for either mark exists; the status check then only passes the turn, so the game never ends as a draw |
| TicTacToe.TicTacToeViewModel.constructor | Games/PlayingGames/TicTacToe/TicTacToeView.swift:92-97 | an empty board, X to move, no winner, game not over, no winning line, bot off |
| TicTacToe.TicTacToeViewModel.StartGame | Games/PlayingGames/TicTacToe/TicTacToeView.swift:99-102 | sets the bot setting, then restarts |
| TicTacToe.TicTacToeViewModel.RestartGame | Games/PlayingGames/TicTacToe/TicTacToeView.swift:192-198 | an empty board, X to move, no winner, game not over, no winning line |
| TicTacToe.TicTacToeViewModel.CheckForVictory | Games/PlayingGames/TicTacToe/TicTacToeView.swift:170-190 | true if and only if some fixed line is all the given mark; the square passed in plays no part and the board is untouched; the first such line's ends are recorded only when the game is already over |
| TicTacToe.TicTacToeViewModel.CheckGameStatus | Games/PlayingGames/TicTacToe/TicTacToeView.swift:161-168 | if the mark to move has a line, it becomes the winner, the game is over and the turn stays; otherwise the turn passes and nothing else changes |
| TicTacToe.TicTacToeViewModel.MakeMove | Games/PlayingGames/TicTacToe/TicTacToeView.swift:104-114 | nothing changes on an occupied square or once the game is over. Otherwise exactly the tapped square gets the mark to move and the status is settled. The bot is scheduled when playing against it, the game is open and O is to move. The winning line is never written |
| TicTacToe.TicTacToeViewModel.FindWinningMove | Games/PlayingGames/TicTacToe/TicTacToeView.swift:124-143 | for O, the state is unchanged when no empty square completes a line; otherwise O is placed on the first such square and the status is settled. For any other mark it always returns false with nothing changed, so the block step never fires |
| TicTacToe.TicTacToeViewModel.RandomMove | Games/PlayingGames/TicTacToe/TicTacToeView.swift:145-159 | on a full board nothing changes; otherwise exactly the picked empty square gets the mark to move and the status is settled |
| TicTacToe.TicTacToeViewModel.BotMove | Games/PlayingGames/TicTacToe/TicTacToeView.swift:116-122 | O takes the first winning square if one exists; otherwise there is no block, and the picked empty square gets the mark to move; a full board is left alone |

## Left out

- All SwiftUI rendering and layout is not part of this model: the view bodies, `SquareView`, `MainView`, the colour and name helpers and the `Player` display strings. Of the Connect Four view body, only the tap guard (`ConnectFourGame.Tap`) and the "Play against AI" toggle (`ConnectFourGame.SetAIEnabled`) are modelled.
- `WinningLineView.path` is floating-point drawing geometry and is not modelled.
- The navigation, settings and theme views of the app are not part of this model.
- The thinking delays of the computer players (`DispatchQueue.main.asyncAfter`) are not modelled. Each delayed callback is a method the caller invokes. The scheduling method returns whether the callback would be scheduled.
- Races during a thinking delay are not modelled: a restart or a tap that runs before the callback.
- `randomElement()` is not modelled. The chosen move, square or column is the parameter `pick`, an index into the same candidate list.
- Observation wrappers (`@Published`, `@State`, `@StateObject`) are treated as plain fields.
- Swift arrays are values, so each board is a `seq` field the methods reassign; there is no aliasing to model.
- Out-of-range board indices, which crash the Swift code, are excluded by preconditions. They cover tap coordinates and the moves handed to `ExecuteMove`. The view only passes positions on the board.
- Checkers.CheckersViewModel.TapSquare: `performComputerMoveIfNeeded` is folded into the returned flag, which is set when player two is to move. The callback body itself is `ComputerMove`.
- TicTacToe.TicTacToeViewModel.BotMove: requires the game to be open. The bot is scheduled only while the game is open, and only a race during the delay, which is left out, could end it first.
- TicTacToe.TicTacToeViewModel.FindWinningMove: requires the game to be open. It is called only from `BotMove`. With the game open, the trial victory tests never write the winning line.
- TicTacToe.TicTacToeViewModel.RandomMove: requires the game to be open, for the same reason as `BotMove`.
- The Tic-Tac-Toe marks are the strings "", "X" and "O" in the Swift code. Here they are the datatype `Mark` (`Blank`, `X`, `O`), and `winner == ""` is `Blank`.
- Swift's `/` truncates toward zero while Dafny's is Euclidean. They agree on the checkers midpoint, whose operands are board coordinates and therefore non-negative.

## Behaviour worth knowing

The model follows the code in each of these cases. Each one departs from the
usual rules of the game or from what the code itself announces.

- **Checkers, same-side capture.** Under the usual rules a jump captures only an opponent's piece. The capture test (`CheckersView.swift:147`) compares the jumped piece with the mover's exact kind instead, so a man may jump a king of its own side and the reverse (`SameSideCapture`).
- **Checkers, captures are optional.** The usual rules force a capture when one is available. The generator offers steps alongside jumps (`CheckersView.swift:140-151`), and both the player and the computer may take a step.
- **Checkers, stale moves on selection.** Selecting a piece appends its moves to the move list without clearing it (`CheckersView.swift:67-68`), and every listed destination is highlighted. Moves of a previously selected piece therefore stay playable (`TapSquare`).
- **Checkers, restart keeps the move list.** `setupBoard` (`CheckersView.swift:36-51`) does not clear the move list.
- **Checkers, highlights survive a move.** Neither `executeMove` nor `switchPlayer` clears highlights (`CheckersView.swift:82-107`).
- **Tic-Tac-Toe, no blocking.** `botMove` announces a block step with the comment at `TicTacToeView.swift:118`. The search for X, however, takes back every trial placement that wins (`TicTacToeView.swift:133-135`) and returns false, so the block step never places anything (`FindWinningMove`).
- **Tic-Tac-Toe, winning line never recorded.** The view draws the winning line only when `winningLine` is set (`TicTacToeView.swift:63-67`). The only write to it is guarded by `isGameOver` (`TicTacToeView.swift:183-185`). Every victory test runs before the game-over flag is set, so the line stays unset (`MakeMove`, `BotMove`).
- **Tic-Tac-Toe, no draw.** A full board without a line only passes the turn (`TicTacToeView.swift:161-168`); the game never ends as a draw (`DrawIsNotDetected`).
- **Connect Four, draws do not end the game.** The view shows "It's a draw!" on a full board (`ConnectFourView.swift:49-51`). The state never records a draw: after a non-winning drop the turn always passes (`ConnectFourView.swift:88-89`). The full-board test `CheckForDraw` feeds only that message.
