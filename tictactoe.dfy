/** The tic-tac-toe engine: a 3 by 3 board of marks, X to move first, a bot
    that plays O and looks for a winning square before it plays at random. */
module TicTacToe {
  import opened Options
  import opened Grids

  /** The contents of a square; the engine writes "" for an empty square and
      "X" or "O" for a mark, and `Blank` stands for "". */
  datatype Mark = Blank | X | O

  /** A square as (row, column). */
  type Cell = (int, int)

  const Size: nat := 3

  ghost predicate IsBoard(g: seq<seq<Mark>>) {
    IsGrid(g, Size, Size)
  }

  predicate OnBoard(c: Cell) {
    0 <= c.0 < Size && 0 <= c.1 < Size
  }

  /** The player who moves after `p`: O after X, X after anything else. */
  function Other(p: Mark): (q: Mark)
    ensures p == X ==> q == O
    ensures p != X ==> q == X
    ensures p == X || p == O ==> q != p && (q == X || q == O)
  {
    if p == X then O else X
  }

  function EmptyBoard(): (g: seq<seq<Mark>>)
    ensures IsBoard(g)
    ensures forall i, j :: 0 <= i < Size && 0 <= j < Size ==> g[i][j] == Blank
  {
    seq(Size, _ => seq(Size, _ => Blank))
  }

  // ---------------------------------------------------------------------------
  // The eight lines

  /** A line of three squares, listed from one end to the other. */
  datatype Line = Line(first: Cell, middle: Cell, last: Cell)

  /** The three rows, the three columns and the two diagonals, in the order
      the victory test tries them. */
  const WinLines: seq<Line> := [
    Line((0, 0), (0, 1), (0, 2)),
    Line((1, 0), (1, 1), (1, 2)),
    Line((2, 0), (2, 1), (2, 2)),
    Line((0, 0), (1, 0), (2, 0)),
    Line((0, 1), (1, 1), (2, 1)),
    Line((0, 2), (1, 2), (2, 2)),
    Line((0, 0), (1, 1), (2, 2)),
    Line((0, 2), (1, 1), (2, 0))
  ]

  /** The square `c` is on the board and holds `p`. */
  predicate Holds(g: seq<seq<Mark>>, c: Cell, p: Mark)
    requires IsBoard(g)
  {
    OnBoard(c) && g[c.0][c.1] == p
  }

  /** Every square of `line` holds `p`. */
  predicate LineFilled(g: seq<seq<Mark>>, line: Line, p: Mark)
    requires IsBoard(g)
  {
    Holds(g, line.first, p) && Holds(g, line.middle, p) && Holds(g, line.last, p)
  }

  /** One of the eight lines is entirely `p`. */
  predicate HasLine(g: seq<seq<Mark>>, p: Mark)
    requires IsBoard(g)
  {
    exists k :: 0 <= k < |WinLines| && LineFilled(g, WinLines[k], p)
  }

  /** The first line, from index `k` on, that is entirely `p`. */
  function FirstLineFrom(g: seq<seq<Mark>>, p: Mark, k: nat): (r: Option<nat>)
    requires IsBoard(g) && k <= |WinLines|
    ensures r.None? <==> forall t :: k <= t < |WinLines| ==> !LineFilled(g, WinLines[t], p)
    ensures r.Some? ==> k <= r.value < |WinLines| && LineFilled(g, WinLines[r.value], p) &&
                        forall t :: k <= t < r.value ==> !LineFilled(g, WinLines[t], p)
    decreases |WinLines| - k
  {
    if k == |WinLines| then None
    else if LineFilled(g, WinLines[k], p) then Some(k)
    else FirstLineFrom(g, p, k + 1)
  }

  /** The first line that is entirely `p`, if any. */
  function FirstLine(g: seq<seq<Mark>>, p: Mark): (r: Option<nat>)
    requires IsBoard(g)
    ensures r.None? <==> !HasLine(g, p)
    ensures r.Some? ==> r.value < |WinLines| && LineFilled(g, WinLines[r.value], p) &&
                        forall t :: 0 <= t < r.value ==> !LineFilled(g, WinLines[t], p)
  {
    FirstLineFrom(g, p, 0)
  }

  /** The two end squares of a line, as the winning line is recorded. */
  function Ends(line: Line): (Cell, Cell) {
    (line.first, line.last)
  }

  /** HasLine spelled out line by line. */
  lemma HasLineUnrolled(g: seq<seq<Mark>>, p: Mark)
    requires IsBoard(g)
    ensures HasLine(g, p) <==>
              LineFilled(g, WinLines[0], p) || LineFilled(g, WinLines[1], p) ||
              LineFilled(g, WinLines[2], p) || LineFilled(g, WinLines[3], p) ||
              LineFilled(g, WinLines[4], p) || LineFilled(g, WinLines[5], p) ||
              LineFilled(g, WinLines[6], p) || LineFilled(g, WinLines[7], p)
  {
    if HasLine(g, p) {
      var k :| 0 <= k < |WinLines| && LineFilled(g, WinLines[k], p);
      assert k == 0 || k == 1 || k == 2 || k == 3 || k == 4 || k == 5 || k == 6 || k == 7;
    }
  }

  /** Three squares across row `r`, down column `c` or along a diagonal. */
  predicate RowFilled(g: seq<seq<Mark>>, r: nat, p: Mark)
    requires IsBoard(g) && r < Size
  {
    g[r][0] == p && g[r][1] == p && g[r][2] == p
  }

  predicate ColumnFilled(g: seq<seq<Mark>>, c: nat, p: Mark)
    requires IsBoard(g) && c < Size
  {
    g[0][c] == p && g[1][c] == p && g[2][c] == p
  }

  /** The eight lines are the three rows, the three columns and the two
      diagonals of the board. */
  lemma HasLineIsThreeInARow(g: seq<seq<Mark>>, p: Mark)
    requires IsBoard(g)
    ensures HasLine(g, p) <==>
              (exists r :: 0 <= r < Size && RowFilled(g, r, p)) ||
              (exists c :: 0 <= c < Size && ColumnFilled(g, c, p)) ||
              (g[0][0] == p && g[1][1] == p && g[2][2] == p) ||
              (g[0][2] == p && g[1][1] == p && g[2][0] == p)
  {
    HasLineUnrolled(g, p);
    assert LineFilled(g, WinLines[0], p) <==> RowFilled(g, 0, p);
    assert LineFilled(g, WinLines[1], p) <==> RowFilled(g, 1, p);
    assert LineFilled(g, WinLines[2], p) <==> RowFilled(g, 2, p);
    assert LineFilled(g, WinLines[3], p) <==> ColumnFilled(g, 0, p);
    assert LineFilled(g, WinLines[4], p) <==> ColumnFilled(g, 1, p);
    assert LineFilled(g, WinLines[5], p) <==> ColumnFilled(g, 2, p);
    if exists r :: 0 <= r < Size && RowFilled(g, r, p) {
      var r :| 0 <= r < Size && RowFilled(g, r, p);
      assert r == 0 || r == 1 || r == 2;
    }
    if exists c :: 0 <= c < Size && ColumnFilled(g, c, p) {
      var c :| 0 <= c < Size && ColumnFilled(g, c, p);
      assert c == 0 || c == 1 || c == 2;
    }
  }

  // ---------------------------------------------------------------------------
  // The bot's search for a winning square

  /** Putting `p` on the empty square (i, j) completes a line of `p`. */
  predicate Completes(g: seq<seq<Mark>>, p: Mark, i: nat, j: nat)
    requires IsBoard(g) && i < Size && j < Size
  {
    g[i][j] == Blank && HasLine(Set(g, i, j, p), p)
  }

  /** The first square of row `i`, from column `j` on, that completes a line. */
  function FirstInRow(g: seq<seq<Mark>>, p: Mark, i: nat, j: nat): (r: Option<Cell>)
    requires IsBoard(g) && i < Size && j <= Size
    ensures r.Some? ==> r.value.0 == i && j <= r.value.1 < Size
    decreases Size - j
  {
    if j == Size then None
    else if Completes(g, p, i, j) then Some((i, j))
    else FirstInRow(g, p, i, j + 1)
  }

  /** `a` if it holds a square, otherwise `b`. */
  function OrElse(a: Option<Cell>, b: Option<Cell>): Option<Cell> {
    if a.Some? then a else b
  }

  /** The first square in row-major order, from row `i` on, that completes a line. */
  function FirstFromRow(g: seq<seq<Mark>>, p: Mark, i: nat): (r: Option<Cell>)
    requires IsBoard(g) && i <= Size
    ensures r.Some? ==> i <= r.value.0 < Size && 0 <= r.value.1 < Size
    decreases Size - i
  {
    if i == Size then None else OrElse(FirstInRow(g, p, i, 0), FirstFromRow(g, p, i + 1))
  }

  /** The square the bot's search settles on for `p`. */
  function FirstWinningCell(g: seq<seq<Mark>>, p: Mark): (r: Option<Cell>)
    requires IsBoard(g)
    ensures r.Some? ==> OnBoard(r.value)
  {
    FirstFromRow(g, p, 0)
  }

  /** Square (a, b) comes before square (a', b') in row-major order. */
  predicate Before(a': int, b': int, a: int, b: int) {
    a' < a || (a' == a && b' < b)
  }

  lemma {:induction false} FirstInRowExactly(g: seq<seq<Mark>>, p: Mark, i: nat, j: nat)
    requires IsBoard(g) && i < Size && j <= Size
    ensures var r := FirstInRow(g, p, i, j);
            && (r.None? <==> forall c :: j <= c < Size ==> !Completes(g, p, i, c))
            && (r.Some? ==> Completes(g, p, i, r.value.1) &&
                            forall c :: j <= c < r.value.1 ==> !Completes(g, p, i, c))
    decreases Size - j
  {
    if j < Size && !Completes(g, p, i, j) {
      FirstInRowExactly(g, p, i, j + 1);
    }
  }

  lemma {:induction false} FirstFromRowExactly(g: seq<seq<Mark>>, p: Mark, i: nat)
    requires IsBoard(g) && i <= Size
    ensures var r := FirstFromRow(g, p, i);
            && (r.None? <==> forall a, b :: i <= a < Size && 0 <= b < Size ==> !Completes(g, p, a, b))
            && (r.Some? ==>
                  Completes(g, p, r.value.0, r.value.1) &&
                  forall a, b :: i <= a < Size && 0 <= b < Size && Before(a, b, r.value.0, r.value.1) ==>
                                 !Completes(g, p, a, b))
    decreases Size - i
  {
    if i < Size {
      FirstInRowExactly(g, p, i, 0);
      FirstFromRowExactly(g, p, i + 1);
    }
  }

  /** The bot's search for `p` settles on the first empty square in row-major
      order whose filling completes a line of `p`, and on none exactly when no
      empty square does. */
  lemma FirstWinningCellExactly(g: seq<seq<Mark>>, p: Mark)
    requires IsBoard(g)
    ensures var r := FirstWinningCell(g, p);
            && (r.None? <==> forall a, b :: 0 <= a < Size && 0 <= b < Size ==> !Completes(g, p, a, b))
            && (r.Some? ==>
                  g[r.value.0][r.value.1] == Blank && HasLine(Set(g, r.value.0, r.value.1, p), p) &&
                  forall a, b :: 0 <= a < Size && 0 <= b < Size && Before(a, b, r.value.0, r.value.1) ==>
                                 !Completes(g, p, a, b))
  {
    FirstFromRowExactly(g, p, 0);
  }

  // ---------------------------------------------------------------------------
  // The empty squares

  /** The empty squares among the first `n` of row `i`, left to right. */
  function RowSpaces(g: seq<seq<Mark>>, i: nat, n: nat): seq<Cell>
    requires IsBoard(g) && i < Size && n <= Size
  {
    if n == 0 then [] else RowSpaces(g, i, n - 1) + (if g[i][n - 1] == Blank then [(i, n - 1)] else [])
  }

  /** The empty squares of the first `n` rows, in row-major order. */
  function SpacesUpTo(g: seq<seq<Mark>>, n: nat): seq<Cell>
    requires IsBoard(g) && n <= Size
  {
    if n == 0 then [] else SpacesUpTo(g, n - 1) + RowSpaces(g, n - 1, Size)
  }

  /** The squares the random move chooses from. */
  function AvailableSpaces(g: seq<seq<Mark>>): seq<Cell>
    requires IsBoard(g)
  {
    SpacesUpTo(g, Size)
  }

  lemma {:induction false} RowSpacesExactly(g: seq<seq<Mark>>, i: nat, n: nat, c: Cell)
    requires IsBoard(g) && i < Size && n <= Size
    ensures c in RowSpaces(g, i, n) <==> c.0 == i && 0 <= c.1 < n && g[c.0][c.1] == Blank
  {
    if n > 0 {
      RowSpacesExactly(g, i, n - 1, c);
    }
  }

  lemma {:induction false} SpacesUpToExactly(g: seq<seq<Mark>>, n: nat, c: Cell)
    requires IsBoard(g) && n <= Size
    ensures c in SpacesUpTo(g, n) <==> 0 <= c.0 < n && 0 <= c.1 < Size && g[c.0][c.1] == Blank
  {
    if n > 0 {
      SpacesUpToExactly(g, n - 1, c);
      RowSpacesExactly(g, n - 1, Size, c);
    }
  }

  /** The random move chooses among exactly the empty squares. */
  lemma AvailableSpacesExactly(g: seq<seq<Mark>>, c: Cell)
    requires IsBoard(g)
    ensures c in AvailableSpaces(g) <==> OnBoard(c) && g[c.0][c.1] == Blank
  {
    SpacesUpToExactly(g, Size, c);
  }

  /** No square is listed twice; together with AvailableSpacesExactly every
      empty square is one choice. */
  lemma {:induction false} SpacesUpToDistinct(g: seq<seq<Mark>>, n: nat)
    requires IsBoard(g) && n <= Size
    ensures forall s, t :: 0 <= s < t < |SpacesUpTo(g, n)| ==> SpacesUpTo(g, n)[s] != SpacesUpTo(g, n)[t]
  {
    if n > 0 {
      SpacesUpToDistinct(g, n - 1);
      RowSpacesDistinct(g, n - 1, Size);
      var a, b := SpacesUpTo(g, n - 1), RowSpaces(g, n - 1, Size);
      forall s | 0 <= s < |a|
        ensures a[s].0 < n - 1
      {
        SpacesUpToExactly(g, n - 1, a[s]);
      }
      forall t | 0 <= t < |b|
        ensures b[t].0 == n - 1
      {
        RowSpacesExactly(g, n - 1, Size, b[t]);
      }
    }
  }

  lemma {:induction false} RowSpacesDistinct(g: seq<seq<Mark>>, i: nat, n: nat)
    requires IsBoard(g) && i < Size && n <= Size
    ensures forall s, t :: 0 <= s < t < |RowSpaces(g, i, n)| ==> RowSpaces(g, i, n)[s] != RowSpaces(g, i, n)[t]
  {
    if n > 0 {
      RowSpacesDistinct(g, i, n - 1);
      var a := RowSpaces(g, i, n - 1);
      forall s | 0 <= s < |a|
        ensures a[s].1 < n - 1
      {
        RowSpacesExactly(g, i, n - 1, a[s]);
      }
    }
  }

  /** A full board with no line for either side: the engine has no draw test,
      so a game that reaches it stays undecided and every later tap is turned
      away. */
  lemma DrawIsNotDetected()
    ensures var g := [[X, O, X], [X, O, O], [O, X, X]];
            IsBoard(g) && AvailableSpaces(g) == [] && !HasLine(g, X) && !HasLine(g, O)
  {
    var g := [[X, O, X], [X, O, O], [O, X, X]];
    HasLineIsThreeInARow(g, X);
    HasLineIsThreeInARow(g, O);
  }

  // ---------------------------------------------------------------------------
  // The view model

  class TicTacToeViewModel {
    var board: seq<seq<Mark>>
    var currentPlayer: Mark
    var winner: Mark
    var isGameOver: bool
    var winningLine: Option<(Cell, Cell)>
    var againstAI: bool

    ghost predicate Valid()
      reads this
    {
      IsBoard(board) && (currentPlayer == X || currentPlayer == O)
    }

    /** What checkGameStatus leaves behind once `previous` has just moved: a
        line of `previous` ends the game in its favour with `previous` still
        to move; otherwise the turn passes and nothing else changes. */
    ghost predicate StatusFrom(previous: Mark, previousWinner: Mark, previousOver: bool)
      requires IsBoard(board)
      reads this
    {
      if HasLine(board, previous) then
        winner == previous && isGameOver && currentPlayer == previous
      else
        winner == previousWinner && isGameOver == previousOver && currentPlayer == Other(previous)
    }

    constructor ()
      ensures Valid()
      ensures board == EmptyBoard() && currentPlayer == X && winner == Blank && !isGameOver
      ensures winningLine == None && !againstAI
    {
      board := EmptyBoard();
      currentPlayer := X;
      winner := Blank;
      isGameOver := false;
      winningLine := None;
      againstAI := false;
    }

    method StartGame(againstAI: bool)
      modifies this
      ensures Valid() && this.againstAI == againstAI
      ensures board == EmptyBoard() && currentPlayer == X && winner == Blank && !isGameOver && winningLine == None
    {
      this.againstAI := againstAI;
      RestartGame();
    }

    method RestartGame()
      modifies this`board, this`currentPlayer, this`winner, this`isGameOver, this`winningLine
      ensures Valid()
      ensures board == EmptyBoard() && currentPlayer == X && winner == Blank && !isGameOver && winningLine == None
    {
      board := EmptyBoard();
      currentPlayer := X;
      winner := Blank;
      isGameOver := false;
      winningLine := None;
    }

    /** The victory test: tries the eight lines in order and reports whether
        one is entirely `player`; the square (row, column) plays no part. The
        first such line is recorded as the winning line only when the game is
        already over. */
    method CheckForVictory(player: Mark, row: int, column: int) returns (won: bool)
      requires IsBoard(board)
      modifies this`winningLine
      ensures won <==> HasLine(board, player)
      ensures winningLine == if won && isGameOver then Some(Ends(WinLines[FirstLine(board, player).value]))
                             else old(winningLine)
    {
      for k := 0 to |WinLines|
        invariant FirstLine(board, player) == FirstLineFrom(board, player, k)
        invariant winningLine == old(winningLine)
      {
        var win := WinLines[k];
        if LineFilled(board, win, player) {
          if isGameOver {
            winningLine := Some((win.first, win.last));
          }
          return true;
        }
      }
      return false;
    }

    /** Ends the game when the player to move has a line, otherwise passes the turn. */
    method CheckGameStatus(row: int, column: int)
      requires Valid()
      modifies this`currentPlayer, this`winner, this`isGameOver, this`winningLine
      ensures Valid() && StatusFrom(old(currentPlayer), old(winner), old(isGameOver))
      ensures winningLine ==
                if old(isGameOver) && HasLine(board, old(currentPlayer))
                then Some(Ends(WinLines[FirstLine(board, old(currentPlayer)).value]))
                else old(winningLine)
    {
      var won := CheckForVictory(currentPlayer, row, column);
      if won {
        winner := currentPlayer;
        isGameOver := true;
      } else {
        currentPlayer := if currentPlayer == X then O else X;
      }
    }

    /** A tap on square (row, column): accepted only on an empty square while
        the game is not over, when it puts the mark of the player to move there
        and settles the game status. The result says whether the bot's reply is
        then scheduled: against the computer, with the game still open and O to
        move. The winning line is never written on this path. */
    method MakeMove(row: nat, column: nat) returns (botScheduled: bool)
      requires Valid() && row < Size && column < Size
      modifies this`board, this`currentPlayer, this`winner, this`isGameOver, this`winningLine
      ensures Valid() && winningLine == old(winningLine)
      ensures old(board)[row][column] != Blank || old(isGameOver) ==>
                && board == old(board) && currentPlayer == old(currentPlayer)
                && winner == old(winner) && isGameOver == old(isGameOver) && !botScheduled
      ensures old(board)[row][column] == Blank && !old(isGameOver) ==>
                && board == Set(old(board), row, column, old(currentPlayer))
                && StatusFrom(old(currentPlayer), old(winner), old(isGameOver))
                && botScheduled == (!isGameOver && againstAI && currentPlayer == O)
    {
      botScheduled := false;
      if board[row][column] == Blank && !isGameOver {
        board := Set(board, row, column, currentPlayer);
        CheckGameStatus(row, column);
        botScheduled := !isGameOver && againstAI && currentPlayer == O;
      }
    }

    /** Tries every empty square in row-major order with `player`'s mark and
        takes back each trial that does not win. A winning trial is kept and
        settles the game status only for O; for any other player it is taken
        back too, so the search then never succeeds. */
    method FindWinningMove(player: Mark) returns (found: bool)
      requires Valid() && !isGameOver
      modifies this`board, this`currentPlayer, this`winner, this`isGameOver, this`winningLine
      ensures Valid() && winningLine == old(winningLine)
      ensures player != O || FirstWinningCell(old(board), O).None? ==>
                && !found && board == old(board) && currentPlayer == old(currentPlayer)
                && winner == old(winner) && isGameOver == old(isGameOver)
      ensures player == O && FirstWinningCell(old(board), O).Some? ==>
                var (i, j) := FirstWinningCell(old(board), O).value;
                && found && board == Set(old(board), i, j, O)
                && StatusFrom(old(currentPlayer), old(winner), old(isGameOver))
    {
      ghost var g := board;
      for i := 0 to Size
        invariant board == g && currentPlayer == old(currentPlayer) && winner == old(winner)
        invariant !isGameOver && winningLine == old(winningLine)
        invariant player == O ==> FirstWinningCell(g, O) == FirstFromRow(g, O, i)
      {
        for j := 0 to Size
          invariant board == g && currentPlayer == old(currentPlayer) && winner == old(winner)
          invariant !isGameOver && winningLine == old(winningLine)
          invariant player == O ==>
                      FirstFromRow(g, O, i) == OrElse(FirstInRow(g, O, i, j), FirstFromRow(g, O, i + 1))
        {
          ghost var rest := FirstInRow(g, player, i, j + 1);
          assert FirstInRow(g, player, i, j) == if Completes(g, player, i, j) then Some((i, j)) else rest;
          if board[i][j] == Blank {
            board := Set(board, i, j, player);
            var won := CheckForVictory(player, i, j);
            assert won == Completes(g, player, i, j);
            if won {
              if player == O {
                CheckGameStatus(i, j);
                return true;
              } else {
                // A block attempt is taken back.
                board := Set(board, i, j, Blank);
              }
            } else {
              board := Set(board, i, j, Blank);
            }
            SetUndo(g, i, j, player);
          }
        }
      }
      return false;
    }

    /** Puts the mark of the player to move on the empty square at index
        `pick` of the list of empty squares (the random choice), and settles
        the game status; a full board is left alone. */
    method RandomMove(pick: nat)
      requires Valid() && !isGameOver
      requires AvailableSpaces(board) != [] ==> pick < |AvailableSpaces(board)|
      modifies this`board, this`currentPlayer, this`winner, this`isGameOver, this`winningLine
      ensures Valid() && winningLine == old(winningLine)
      ensures AvailableSpaces(old(board)) == [] ==>
                && board == old(board) && currentPlayer == old(currentPlayer)
                && winner == old(winner) && isGameOver == old(isGameOver)
      ensures AvailableSpaces(old(board)) != [] ==>
                var (i, j) := AvailableSpaces(old(board))[pick];
                && OnBoard((i, j)) && old(board)[i][j] == Blank
                && board == Set(old(board), i, j, old(currentPlayer))
                && StatusFrom(old(currentPlayer), old(winner), old(isGameOver))
    {
      var availableSpaces: seq<Cell> := [];
      for i := 0 to Size
        invariant availableSpaces == SpacesUpTo(board, i)
      {
        for j := 0 to Size
          invariant availableSpaces == SpacesUpTo(board, i) + RowSpaces(board, i, j)
        {
          if board[i][j] == Blank {
            availableSpaces := availableSpaces + [(i, j)];
          }
        }
      }
      if availableSpaces != [] {
        var randomSpace := availableSpaces[pick];
        AvailableSpacesExactly(board, randomSpace);
        board := Set(board, randomSpace.0, randomSpace.1, currentPlayer);
        CheckGameStatus(randomSpace.0, randomSpace.1);
      }
    }

    /** The bot's reply: first a square that wins for O, then a block (which
        never succeeds), then a random empty square chosen by `pick`. */
    method BotMove(pick: nat)
      requires Valid() && !isGameOver
      requires AvailableSpaces(board) != [] ==> pick < |AvailableSpaces(board)|
      modifies this`board, this`currentPlayer, this`winner, this`isGameOver, this`winningLine
      ensures Valid() && winningLine == old(winningLine)
      ensures FirstWinningCell(old(board), O).Some? ==>
                var (i, j) := FirstWinningCell(old(board), O).value;
                && board == Set(old(board), i, j, O)
                && StatusFrom(old(currentPlayer), old(winner), old(isGameOver))
      ensures FirstWinningCell(old(board), O).None? && AvailableSpaces(old(board)) == [] ==>
                && board == old(board) && currentPlayer == old(currentPlayer)
                && winner == old(winner) && isGameOver == old(isGameOver)
      ensures FirstWinningCell(old(board), O).None? && AvailableSpaces(old(board)) != [] ==>
                var (i, j) := AvailableSpaces(old(board))[pick];
                && OnBoard((i, j)) && old(board)[i][j] == Blank
                && board == Set(old(board), i, j, old(currentPlayer))
                && StatusFrom(old(currentPlayer), old(winner), old(isGameOver))
    {
      var won := FindWinningMove(O);
      if !won {
        var blocked := FindWinningMove(X);
        if !blocked {
          RandomMove(pick);
        }
      }
    }
  }
}
