/** The Connect-Four engine: a 6-row by 7-column board of optional players,
    cells filled from the bottom row (row 5) upwards. */
module ConnectFour {
  import opened Options
  import opened Grids

  datatype Player = Red | Yellow

  type Cell = Option<Player>

  const Rows: nat := 6
  const Cols: nat := 7

  /** The player who moves after `p`. */
  function Other(p: Player): (q: Player)
    ensures q != p
  {
    if p == Red then Yellow else Red
  }

  ghost predicate IsBoard(g: seq<seq<Cell>>) {
    IsGrid(g, Rows, Cols)
  }

  /** Gravity: in every column every cell below an occupied cell is occupied,
      so the occupied cells are a contiguous block ending at the bottom row. */
  ghost predicate Gravity(g: seq<seq<Cell>>)
    requires IsBoard(g)
  {
    forall r, r', c :: 0 <= r <= r' < Rows && 0 <= c < Cols && g[r][c] != None ==> g[r'][c] != None
  }

  /** The board after a restart: every cell empty. */
  function EmptyBoard(): (g: seq<seq<Cell>>)
    ensures IsBoard(g)
  {
    seq(Rows, _ => seq(Cols, _ => None))
  }

  lemma EmptyBoardIsEmpty()
    ensures IsBoard(EmptyBoard()) && Gravity(EmptyBoard())
    ensures forall r, c :: 0 <= r < Rows && 0 <= c < Cols ==> EmptyBoard()[r][c] == None
  {
  }

  /** The row a token dropped into column `col` lands on, searching rows
      `r`, `r - 1`, ..., 0 for the first empty cell. */
  function DropRowFrom(g: seq<seq<Cell>>, col: nat, r: int): (k: Option<nat>)
    requires IsBoard(g) && col < Cols && r < Rows
    decreases r + 1
    ensures k.None? <==> forall t :: 0 <= t <= r ==> g[t][col] != None
    ensures k.Some? ==> k.value <= r && g[k.value][col] == None &&
                        forall t :: k.value < t <= r ==> g[t][col] != None
  {
    if r < 0 then None
    else if g[r][col] == None then Some(r)
    else DropRowFrom(g, col, r - 1)
  }

  /** The landing row of a token dropped into column `col`: the largest empty row. */
  function DropRow(g: seq<seq<Cell>>, col: nat): Option<nat>
    requires IsBoard(g) && col < Cols
  {
    DropRowFrom(g, col, Rows - 1)
  }

  /** Under gravity, a column is full exactly when its top cell is occupied;
      otherwise the token lands on the lowest empty cell, every cell above that
      one is empty, and placing the token keeps gravity. */
  lemma {:induction false} DropUnderGravity(g: seq<seq<Cell>>, col: nat, p: Player)
    requires IsBoard(g) && Gravity(g) && col < Cols
    ensures DropRow(g, col).None? <==> g[0][col] != None
    ensures DropRow(g, col).Some? ==>
              var r := DropRow(g, col).value;
              (forall t :: 0 <= t <= r ==> g[t][col] == None) &&
              (forall t :: r < t < Rows ==> g[t][col] != None) &&
              Gravity(Set(g, r, col, Some(p)))
  {
    var d := DropRow(g, col);
    if d.None? {
      assert g[0][col] != None;
    } else {
      var r := d.value;
      var g' := Set(g, r, col, Some(p));
      forall a, b, c | 0 <= a <= b < Rows && 0 <= c < Cols && g'[a][c] != None
        ensures g'[b][c] != None
      {
      }
    }
  }

  /** The columns, among 0 .. n-1, whose top cell is empty, in increasing order. */
  function OpenColumnsUpTo(g: seq<seq<Cell>>, n: nat): (cols: seq<nat>)
    requires IsBoard(g) && n <= Cols
    ensures forall c :: c in cols ==> c < n
    ensures forall c :: 0 <= c < n ==> (c in cols <==> g[0][c] == None)
    ensures forall i, j :: 0 <= i < j < |cols| ==> cols[i] < cols[j]
  {
    if n == 0 then []
    else
      var prev := OpenColumnsUpTo(g, n - 1);
      assert forall i :: 0 <= i < |prev| ==> prev[i] in prev;
      prev + (if g[0][n - 1] == None then [n - 1] else [])
  }

  /** The columns the computer may choose from. */
  function OpenColumns(g: seq<seq<Cell>>): seq<nat>
    requires IsBoard(g)
  {
    OpenColumnsUpTo(g, Cols)
  }

  /** The product `i * d` (see ScaledIsProduct), by repeated addition: the
      offset of the `i`-th cell along a direction of step `d`. Written this way
      so that the scan's proof stays within linear arithmetic. */
  function Scaled(i: int, d: int): (r: int)
    decreases if i < 0 then -i else i
  {
    if i == 0 then 0
    else if i > 0 then Scaled(i - 1, d) + d
    else Scaled(i + 1, d) - d
  }

  lemma {:induction false} ScaledIsProduct(i: int, d: int)
    ensures Scaled(i, d) == i * d
    decreases if i < 0 then -i else i
  {
    if i > 0 {
      ScaledIsProduct(i - 1, d);
    } else if i < 0 {
      ScaledIsProduct(i + 1, d);
    }
  }

  /** Offset `i` along direction (dr, dc) from (row, col) is on the board and
      holds the same value as (row, col). */
  predicate Matches(g: seq<seq<Cell>>, row: nat, col: nat, dr: int, dc: int, i: int)
    requires IsBoard(g) && row < Rows && col < Cols
  {
    var r, c := row + Scaled(i, dr), col + Scaled(i, dc);
    0 <= r < Rows && 0 <= c < Cols && g[r][c] == g[row][col]
  }

  /** The four consecutive offsets k, k+1, k+2, k+3 all match. */
  predicate Window(g: seq<seq<Cell>>, row: nat, col: nat, dr: int, dc: int, k: int)
    requires IsBoard(g) && row < Rows && col < Cols
  {
    Matches(g, row, col, dr, dc, k) && Matches(g, row, col, dr, dc, k + 1) &&
    Matches(g, row, col, dr, dc, k + 2) && Matches(g, row, col, dr, dc, k + 3)
  }

  /** Some four consecutive offsets inside the window -3 .. 3 all match. */
  predicate FourInLine(g: seq<seq<Cell>>, row: nat, col: nat, dr: int, dc: int)
    requires IsBoard(g) && row < Rows && col < Cols
  {
    exists k :: -3 <= k && k + 3 <= 3 && Window(g, row, col, dr, dc, k)
  }

  /** The cell `t` steps along (dr, dc) from (row, col) is on the board and
      holds the same value as (row, col). */
  predicate SameAt(g: seq<seq<Cell>>, row: nat, col: nat, dr: int, dc: int, t: int)
    requires IsBoard(g) && row < Rows && col < Cols
  {
    0 <= row + t * dr < Rows && 0 <= col + t * dc < Cols && g[row + t * dr][col + t * dc] == g[row][col]
  }

  /** The four cells at steps k, k+1, k+2 and k+3 along (dr, dc) all hold the
      value of (row, col). */
  predicate FourCellsFrom(g: seq<seq<Cell>>, row: nat, col: nat, dr: int, dc: int, k: int)
    requires IsBoard(g) && row < Rows && col < Cols
  {
    forall t :: k <= t <= k + 3 ==> SameAt(g, row, col, dr, dc, t)
  }

  lemma WindowIsFourCells(g: seq<seq<Cell>>, row: nat, col: nat, dr: int, dc: int, k: int)
    requires IsBoard(g) && row < Rows && col < Cols
    ensures Window(g, row, col, dr, dc, k) <==> FourCellsFrom(g, row, col, dr, dc, k)
  {
    forall t | k <= t <= k + 3
      ensures Matches(g, row, col, dr, dc, t) <==> SameAt(g, row, col, dr, dc, t)
    {
      ScaledIsProduct(t, dr);
      ScaledIsProduct(t, dc);
    }
    if Window(g, row, col, dr, dc, k) {
      forall t | k <= t <= k + 3
        ensures SameAt(g, row, col, dr, dc, t)
      {
        assert t == k || t == k + 1 || t == k + 2 || t == k + 3;
      }
    }
  }

  /** The scan finds exactly four consecutive cells on the line through
      (row, col) that hold its value, and those four include (row, col)
      itself: the scan never reports a line that misses the cell it was
      asked about. */
  lemma FourInLineIsFourCells(g: seq<seq<Cell>>, row: nat, col: nat, dr: int, dc: int)
    requires IsBoard(g) && row < Rows && col < Cols
    ensures FourInLine(g, row, col, dr, dc) <==>
              exists k :: -3 <= k <= 0 && FourCellsFrom(g, row, col, dr, dc, k)
  {
    if FourInLine(g, row, col, dr, dc) {
      var k :| -3 <= k && k + 3 <= 3 && Window(g, row, col, dr, dc, k);
      WindowIsFourCells(g, row, col, dr, dc, k);
    }
    if exists k :: -3 <= k <= 0 && FourCellsFrom(g, row, col, dr, dc, k) {
      var k :| -3 <= k <= 0 && FourCellsFrom(g, row, col, dr, dc, k);
      WindowIsFourCells(g, row, col, dr, dc, k);
    }
  }

  /** A win through (row, col): four in a line horizontally, vertically or on
      either diagonal. */
  predicate WinAt(g: seq<seq<Cell>>, row: nat, col: nat)
    requires IsBoard(g) && row < Rows && col < Cols
  {
    FourInLine(g, row, col, 0, 1) || FourInLine(g, row, col, 1, 0) ||
    FourInLine(g, row, col, 1, 1) || FourInLine(g, row, col, 1, -1)
  }

  /** Every cell is occupied. */
  predicate IsFull(g: seq<seq<Cell>>)
    requires IsBoard(g)
  {
    forall r, c :: 0 <= r < Rows && 0 <= c < Cols ==> g[r][c] != None
  }

  /** The length of the run of matching offsets that ends at offset `i`,
      counting from offset -3: the value of the scan's counter after offset `i`. */
  function Run(g: seq<seq<Cell>>, row: nat, col: nat, dr: int, dc: int, i: int): nat
    requires IsBoard(g) && row < Rows && col < Cols
    decreases i + 4
  {
    if i < -3 then 0
    else if Matches(g, row, col, dr, dc, i) then Run(g, row, col, dr, dc, i - 1) + 1
    else 0
  }

  /** The counter reaches `n` at offset `i` exactly when the `n` offsets ending
      at `i` all match and lie inside the window. */
  lemma {:induction false} RunMeansMatches(g: seq<seq<Cell>>, row: nat, col: nat, dr: int, dc: int, i: int, n: nat)
    requires IsBoard(g) && row < Rows && col < Cols
    requires -4 <= i
    ensures Run(g, row, col, dr, dc, i) >= n <==>
              -3 <= i - n + 1 && forall t :: i - n < t <= i ==> Matches(g, row, col, dr, dc, t)
    decreases i + 4
  {
    if n > 0 && i >= -3 {
      RunMeansMatches(g, row, col, dr, dc, i - 1, n - 1);
    }
  }

  /** A counter that reaches four at some offset has found four in a line. */
  lemma RunOfFourWins(g: seq<seq<Cell>>, row: nat, col: nat, dr: int, dc: int, i: int)
    requires IsBoard(g) && row < Rows && col < Cols
    requires -3 <= i <= 3 && Run(g, row, col, dr, dc, i) >= 4
    ensures FourInLine(g, row, col, dr, dc)
  {
    RunMeansMatches(g, row, col, dr, dc, i, 4);
    assert Window(g, row, col, dr, dc, i - 3);
  }

  /** A counter that stays below four over the whole window has found no four in a line. */
  lemma ShortRunsDoNotWin(g: seq<seq<Cell>>, row: nat, col: nat, dr: int, dc: int)
    requires IsBoard(g) && row < Rows && col < Cols
    requires forall t :: -3 <= t <= 3 ==> Run(g, row, col, dr, dc, t) < 4
    ensures !FourInLine(g, row, col, dr, dc)
  {
    forall k | -3 <= k && k + 3 <= 3
      ensures !Window(g, row, col, dr, dc, k)
    {
      RunMeansMatches(g, row, col, dr, dc, k + 3, 4);
    }
  }

  class ConnectFourGame {
    var board: seq<seq<Cell>>
    var currentPlayer: Player
    var winner: Option<Player>
    var isAIEnabled: bool

    ghost predicate Valid()
      reads this
    {
      IsBoard(board) && Gravity(board)
    }

    constructor ()
      ensures Valid()
      ensures board == EmptyBoard()
      ensures currentPlayer == Red && winner == None && isAIEnabled
    {
      board := EmptyBoard();
      currentPlayer := Red;
      winner := None;
      isAIEnabled := true;
      EmptyBoardIsEmpty();
    }

    /** The restart button: an empty board, red to move, no winner. */
    method RestartGame()
      modifies this`board, this`currentPlayer, this`winner
      ensures Valid()
      ensures board == EmptyBoard()
      ensures currentPlayer == Red && winner == None && isAIEnabled == old(isAIEnabled)
    {
      board := EmptyBoard();
      currentPlayer := Red;
      winner := None;
      EmptyBoardIsEmpty();
    }

    /** The "Play against AI" toggle. */
    method SetAIEnabled(on: bool)
      modifies this`isAIEnabled
      ensures isAIEnabled == on
    {
      isAIEnabled := on;
    }

    /** Scans offsets -3 .. 3 along (rowDir, colDir) from (row, col) with a
        counter of consecutive cells equal to the cell at (row, col). */
    method CheckDirection(row: nat, col: nat, rowDir: int, colDir: int) returns (found: bool)
      requires Valid() && row < Rows && col < Cols
      ensures found <==> FourInLine(board, row, col, rowDir, colDir)
    {
      var g: seq<seq<Cell>> := board;
      var player := g[row][col];
      var count := 0;
      for i := -3 to 4
        invariant count == Run(g, row, col, rowDir, colDir, i - 1)
        invariant forall t :: -3 <= t < i ==> Run(g, row, col, rowDir, colDir, t) < 4
      {
        var newRow := row + Scaled(i, rowDir);
        var newCol := col + Scaled(i, colDir);
        if 0 <= newRow < Rows && 0 <= newCol < Cols && g[newRow][newCol] == player {
          count := count + 1;
          if count == 4 {
            RunOfFourWins(g, row, col, rowDir, colDir, i);
            return true;
          }
        } else {
          count := 0;
        }
      }
      ShortRunsDoNotWin(g, row, col, rowDir, colDir);
      return false;
    }

    /** Win detection through the cell just filled, in the four directions. */
    method CheckForWin(row: nat, col: nat) returns (won: bool)
      requires Valid() && row < Rows && col < Cols
      ensures won <==> WinAt(board, row, col)
    {
      won := CheckDirection(row, col, 0, 1);
      if !won {
        won := CheckDirection(row, col, 1, 0);
      }
      if !won {
        won := CheckDirection(row, col, 1, 1);
      }
      if !won {
        won := CheckDirection(row, col, 1, -1);
      }
    }

    /** A draw is a board with no empty cell. */
    method CheckForDraw() returns (draw: bool)
      requires Valid()
      ensures draw <==> IsFull(board)
    {
      for row := 0 to Rows
        invariant forall r, c :: 0 <= r < row && 0 <= c < Cols ==> board[r][c] != None
      {
        for col := 0 to Cols
          invariant forall r, c :: (0 <= r < row && 0 <= c < Cols) || (r == row && 0 <= c < col) ==> board[r][c] != None
        {
          if board[row][col] == None {
            return false;
          }
        }
      }
      return true;
    }

    /** Drops the current player's token into column `col`. The token lands on
        the lowest empty cell; a win records the winner, otherwise the turn
        passes. `aiScheduled` is true when the Swift code schedules the
        computer's move (yellow to move and the computer enabled). */
    method PlacePiece(col: nat) returns (aiScheduled: bool)
      requires Valid() && col < Cols
      modifies this`board, this`currentPlayer, this`winner
      ensures Valid()
      ensures match DropRow(old(board), col)
        case None =>
          board == old(board) &&
          currentPlayer == old(currentPlayer) && winner == old(winner) && !aiScheduled
        case Some(r) =>
          board == Set(old(board), r, col, Some(old(currentPlayer))) &&
          if WinAt(board, r, col) then
            winner == Some(old(currentPlayer)) && currentPlayer == old(currentPlayer) && !aiScheduled
          else
            winner == old(winner) && currentPlayer == Other(old(currentPlayer)) &&
            aiScheduled == (currentPlayer == Yellow && isAIEnabled)
    {
      ghost var g := board;
      var row := Rows - 1;
      while row >= 0
        invariant -1 <= row < Rows
        invariant DropRowFrom(g, col, row) == DropRow(g, col)
        invariant board == old(board) && currentPlayer == old(currentPlayer) && winner == old(winner)
      {
        if board[row][col] == None {
          DropUnderGravity(g, col, currentPlayer);
          board := Set(board, row, col, Some(currentPlayer));
          var won := CheckForWin(row, col);
          if won {
            winner := Some(currentPlayer);
            aiScheduled := false;
          } else {
            currentPlayer := Other(currentPlayer);
            aiScheduled := currentPlayer == Yellow && isAIEnabled;
          }
          return;
        }
        row := row - 1;
      }
      aiScheduled := false;
    }

    /** The computer's move: it chooses among the columns whose top cell is
        empty (`pick` stands for the random choice) and does nothing when
        every column is full. */
    method AIMove(pick: nat) returns (aiScheduled: bool)
      requires Valid()
      requires OpenColumns(board) != [] ==> pick < |OpenColumns(board)|
      modifies this`board, this`currentPlayer, this`winner
      ensures Valid()
      ensures var open := OpenColumns(old(board));
        if open == [] then
          board == old(board) &&
          currentPlayer == old(currentPlayer) && winner == old(winner) && !aiScheduled
        else
          var c := open[pick];
          c < Cols && old(board)[0][c] == None &&
          DropRow(old(board), c).Some? &&
          var r := DropRow(old(board), c).value;
          board == Set(old(board), r, c, Some(old(currentPlayer))) &&
          if WinAt(board, r, c) then
            winner == Some(old(currentPlayer)) && currentPlayer == old(currentPlayer) && !aiScheduled
          else
            winner == old(winner) && currentPlayer == Other(old(currentPlayer)) &&
            aiScheduled == (currentPlayer == Yellow && isAIEnabled)
    {
      ghost var g := board;
      var availableCols: seq<nat> := [];
      for col := 0 to Cols
        invariant availableCols == OpenColumnsUpTo(g, col)
      {
        if board[0][col] == None {
          availableCols := availableCols + [col];
        }
      }
      if availableCols != [] {
        assert availableCols[pick] in availableCols;
        DropUnderGravity(g, availableCols[pick], currentPlayer);
        aiScheduled := PlacePiece(availableCols[pick]);
      } else {
        aiScheduled := false;
      }
    }

    /** A tap on cell (row, col): the token is dropped into that column only
        when the tapped cell is empty and nobody has won yet. */
    method Tap(row: nat, col: nat) returns (aiScheduled: bool)
      requires Valid() && row < Rows && col < Cols
      modifies this`board, this`currentPlayer, this`winner
      ensures Valid()
      ensures old(winner) != None || old(board)[row][col] != None ==>
                board == old(board) &&
                currentPlayer == old(currentPlayer) && winner == old(winner) && !aiScheduled
      ensures old(winner) == None && old(board)[row][col] == None ==>
                DropRow(old(board), col).Some? &&
                var r := DropRow(old(board), col).value;
                board == Set(old(board), r, col, Some(old(currentPlayer))) &&
                if WinAt(board, r, col) then
                  winner == Some(old(currentPlayer)) && currentPlayer == old(currentPlayer) && !aiScheduled
                else
                  winner == old(winner) && currentPlayer == Other(old(currentPlayer)) &&
                  aiScheduled == (currentPlayer == Yellow && isAIEnabled)
    {
      if board[row][col] == None && winner == None {
        DropUnderGravity(board, col, currentPlayer);
        aiScheduled := PlacePiece(col);
      } else {
        aiScheduled := false;
      }
    }
  }
}
