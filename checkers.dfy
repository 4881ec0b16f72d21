/** The Checkers engine: an 8 by 8 board of squares, each holding a piece (or
    none) and a highlight flag, the side to move, the winner once there is one,
    and the list of moves currently on offer. Player one's men move up (towards
    row 0), player two's men move down (towards row 7), kings move both ways;
    a move is a diagonal step or a single jump. */
module Checkers {
  import opened Options
  import opened Grids

  datatype Piece = Empty | PlayerOne | PlayerTwo | PlayerOneKing | PlayerTwoKing

  datatype Square = Square(piece: Piece, isHighlighted: bool)

  datatype Pos = Pos(row: int, col: int)

  datatype Move = Move(from: Pos, to: Pos)

  const Size: nat := 8

  /** The four diagonal directions, in the order the generator tries them. */
  const Directions: seq<(int, int)> := [(1, 1), (1, -1), (-1, 1), (-1, -1)]

  ghost predicate IsBoard(g: seq<seq<Square>>) {
    IsGrid(g, Size, Size)
  }

  predicate IsValidPosition(p: Pos) {
    0 <= p.row < Size && 0 <= p.col < Size
  }

  /** The bounds test accepts exactly the positions that index a square of
      the board. */
  lemma ValidPositionIsOnBoard(g: seq<seq<Square>>, p: Pos)
    requires IsBoard(g)
    ensures IsValidPosition(p) <==> 0 <= p.row < |g| && 0 <= p.col < |g[p.row]|
  {
  }

  function PieceAt(g: seq<seq<Square>>, p: Pos): Piece
    requires IsBoard(g) && IsValidPosition(p)
  {
    g[p.row][p.col].piece
  }

  function Abs(x: int): int {
    if x < 0 then -x else x
  }

  predicate IsKing(piece: Piece) {
    piece == PlayerOneKing || piece == PlayerTwoKing
  }

  /** The side that moves after `player`. */
  function Opponent(player: Piece): Piece {
    if player == PlayerOne then PlayerTwo else PlayerOne
  }

  /** The king of the side `player`, as the move list builder computes it. */
  function KingOf(player: Piece): Piece {
    if player == PlayerOne then PlayerOneKing else PlayerTwoKing
  }

  /** The pieces whose moves are collected for `player`: its men and its kings. */
  predicate Owns(piece: Piece, player: Piece) {
    piece == player || piece == KingOf(player)
  }

  /** The selection test: the piece at (row, col) belongs to the side to move.
      For either side this is the same test as the one the move list builder
      uses. */
  function CanMovePieceAt(g: seq<seq<Square>>, row: int, col: int, currentPlayer: Piece): (r: bool)
    requires IsBoard(g) && IsValidPosition(Pos(row, col))
    ensures currentPlayer == PlayerOne || currentPlayer == PlayerTwo ==>
              (r <==> Owns(g[row][col].piece, currentPlayer))
    ensures r ==> g[row][col].piece != Empty
  {
    var piece := g[row][col].piece;
    (piece == PlayerOne && currentPlayer == PlayerOne) ||
    (piece == PlayerOneKing && currentPlayer == PlayerOne) ||
    (piece == PlayerTwo && currentPlayer == PlayerTwo) ||
    (piece == PlayerTwoKing && currentPlayer == PlayerTwo)
  }

  // ---------------------------------------------------------------------------
  // The starting layout

  /** Parity of a natural number, by counting down. */
  predicate Odd(n: nat) {
    if n == 0 then false else !Odd(n - 1)
  }

  lemma {:induction false} OddIsRemainder(n: nat)
    ensures Odd(n) <==> n % 2 == 1
  {
    if n > 0 {
      OddIsRemainder(n - 1);
    }
  }

  /** The dark squares of the board, the only ones pieces start on. */
  predicate IsDark(i: nat, j: nat) {
    Odd(i + j)
  }

  /** The piece a square starts with: player two's men on the dark squares of
      rows 0 to 2, player one's men on the dark squares of rows 5 to 7. */
  function StartPiece(i: nat, j: nat): Piece {
    if IsDark(i, j) then
      if i < 3 then PlayerTwo else if i > 4 then PlayerOne else Empty
    else Empty
  }

  function InitialBoard(): (g: seq<seq<Square>>)
    ensures IsBoard(g)
    ensures forall i, j :: 0 <= i < Size && 0 <= j < Size ==> g[i][j] == Square(StartPiece(i, j), false)
  {
    seq(Size, i requires 0 <= i < Size => seq(Size, j requires 0 <= j < Size => Square(StartPiece(i, j), false)))
  }

  /** The number of squares among the first `n` of row `r` that hold `piece`. */
  function CountInRow(g: seq<seq<Square>>, piece: Piece, r: nat, n: nat): nat
    requires IsBoard(g) && r < Size && n <= Size
  {
    if n == 0 then 0
    else CountInRow(g, piece, r, n - 1) + (if g[r][n - 1].piece == piece then 1 else 0)
  }

  /** The number of squares in the first `n` rows that hold `piece`. */
  function CountInRows(g: seq<seq<Square>>, piece: Piece, n: nat): nat
    requires IsBoard(g) && n <= Size
  {
    if n == 0 then 0 else CountInRows(g, piece, n - 1) + CountInRow(g, piece, n - 1, Size)
  }

  /** The number of squares of the board that hold `piece`. */
  function Count(g: seq<seq<Square>>, piece: Piece): nat
    requires IsBoard(g)
  {
    CountInRows(g, piece, Size)
  }

  /** How the count of `piece` changes when square `before` becomes `after`. */
  function Change(before: Square, after: Square, piece: Piece): int {
    (if after.piece == piece then 1 else 0) - (if before.piece == piece then 1 else 0)
  }

  lemma {:induction false} CountInRowAfterSet(g: seq<seq<Square>>, piece: Piece, r: nat, n: nat, i: nat, j: nat, v: Square)
    requires IsBoard(g) && r < Size && n <= Size && i < Size && j < Size
    ensures IsBoard(Set(g, i, j, v))
    ensures CountInRow(Set(g, i, j, v), piece, r, n) ==
              CountInRow(g, piece, r, n) + (if r == i && j < n then Change(g[i][j], v, piece) else 0)
  {
    if n > 0 {
      CountInRowAfterSet(g, piece, r, n - 1, i, j, v);
    }
  }

  lemma {:induction false} CountInRowsAfterSet(g: seq<seq<Square>>, piece: Piece, n: nat, i: nat, j: nat, v: Square)
    requires IsBoard(g) && n <= Size && i < Size && j < Size
    ensures IsBoard(Set(g, i, j, v))
    ensures CountInRows(Set(g, i, j, v), piece, n) ==
              CountInRows(g, piece, n) + (if i < n then Change(g[i][j], v, piece) else 0)
  {
    if n > 0 {
      CountInRowsAfterSet(g, piece, n - 1, i, j, v);
      CountInRowAfterSet(g, piece, n - 1, Size, i, j, v);
    }
  }

  /** Replacing one square changes each count by at most the one square. */
  lemma CountAfterSet(g: seq<seq<Square>>, piece: Piece, i: nat, j: nat, v: Square)
    requires IsBoard(g) && i < Size && j < Size
    ensures IsBoard(Set(g, i, j, v))
    ensures Count(Set(g, i, j, v), piece) == Count(g, piece) + Change(g[i][j], v, piece)
  {
    CountInRowsAfterSet(g, piece, Size, i, j, v);
  }

  /** Whether `piece` starts on the dark squares of row `r`. */
  predicate StartsOnRow(piece: Piece, r: int) {
    (piece == PlayerTwo && r < 3) || (piece == PlayerOne && r > 4)
  }

  lemma {:induction false} InitialRowCount(piece: Piece, r: nat, k: nat)
    requires piece != Empty && r < Size && 2 * k <= Size
    ensures CountInRow(InitialBoard(), piece, r, 2 * k) == if StartsOnRow(piece, r) then k else 0
  {
    if k > 0 {
      InitialRowCount(piece, r, k - 1);
      assert CountInRow(InitialBoard(), piece, r, 2 * k - 1) ==
             CountInRow(InitialBoard(), piece, r, 2 * k - 2) +
             (if InitialBoard()[r][2 * k - 2].piece == piece then 1 else 0);
    }
  }

  lemma {:induction false} InitialRowsCount(piece: Piece, n: nat)
    requires piece != Empty && n <= Size
    ensures CountInRows(InitialBoard(), piece, n) ==
              if piece == PlayerTwo then (if n < 3 then 4 * n else 12)
              else if piece == PlayerOne then (if n < 5 then 0 else 4 * (n - 5))
              else 0
  {
    if n > 0 {
      InitialRowsCount(piece, n - 1);
      InitialRowCount(piece, n - 1, 4);
    }
  }

  /** The starting layout: twelve men a side on the dark squares, player two's
      in rows 0 to 2 and player one's in rows 5 to 7, the two middle rows empty,
      no kings and no highlights. */
  lemma InitialLayout()
    ensures Count(InitialBoard(), PlayerOne) == 12 && Count(InitialBoard(), PlayerTwo) == 12
    ensures Count(InitialBoard(), PlayerOneKing) == 0 && Count(InitialBoard(), PlayerTwoKing) == 0
    ensures forall i, j :: 0 <= i < Size && 0 <= j < Size ==>
              var sq := InitialBoard()[i][j];
              && !sq.isHighlighted
              && (sq.piece != Empty ==> IsDark(i, j))
              && (sq.piece == PlayerTwo ==> i < 3)
              && (sq.piece == PlayerOne ==> i > 4)
  {
    InitialRowsCount(PlayerOne, Size);
    InitialRowsCount(PlayerTwo, Size);
    InitialRowsCount(PlayerOneKing, Size);
    InitialRowsCount(PlayerTwoKing, Size);
  }

  // ---------------------------------------------------------------------------
  // Move generation

  /** The direction test of the generator: kings go both ways, player one's
      men only up the board and player two's men only down. */
  predicate MayGo(piece: Piece, dr: int) {
    IsKing(piece) || (piece == PlayerOne && dr < 0) || (piece == PlayerTwo && dr > 0)
  }

  /** The step the generator offers the piece at `p` in direction `d`, if any:
      the next diagonal square, when it is on the board and empty and the piece
      may go that way. */
  function StepMove(g: seq<seq<Square>>, p: Pos, d: (int, int)): seq<Move>
    requires IsBoard(g) && IsValidPosition(p)
  {
    var step := Pos(p.row + d.0, p.col + d.1);
    if IsValidPosition(step) && PieceAt(g, step) == Empty && MayGo(PieceAt(g, p), d.0)
    then [Move(p, step)] else []
  }

  /** The jump the generator offers the piece at `p` in direction `d`, if any:
      the square two along, when it is on the board and empty, the square in
      between holds a piece of a different kind, and the piece may go that way. */
  function JumpMove(g: seq<seq<Square>>, p: Pos, d: (int, int)): seq<Move>
    requires IsBoard(g) && IsValidPosition(p)
  {
    var between := Pos(p.row + d.0, p.col + d.1);
    var jump := Pos(p.row + 2 * d.0, p.col + 2 * d.1);
    if IsValidPosition(jump) && PieceAt(g, jump) == Empty && IsValidPosition(between) &&
       PieceAt(g, between) != Empty && PieceAt(g, between) != PieceAt(g, p) && MayGo(PieceAt(g, p), d.0)
    then [Move(p, jump)] else []
  }

  /** The moves the generator appends for the piece at `p` in direction `d`:
      first the step, then the jump. */
  function DirectionMoves(g: seq<seq<Square>>, p: Pos, d: (int, int)): seq<Move>
    requires IsBoard(g) && IsValidPosition(p)
  {
    StepMove(g, p, d) + JumpMove(g, p, d)
  }

  /** The moves appended for the first `k` directions, in order. */
  function MovesUpTo(g: seq<seq<Square>>, p: Pos, k: nat): seq<Move>
    requires IsBoard(g) && IsValidPosition(p) && k <= |Directions|
  {
    if k == 0 then [] else MovesUpTo(g, p, k - 1) + DirectionMoves(g, p, Directions[k - 1])
  }

  /** The moves generated for the piece at `p`. */
  function MovesFrom(g: seq<seq<Square>>, p: Pos): seq<Move>
    requires IsBoard(g) && IsValidPosition(p)
  {
    MovesUpTo(g, p, |Directions|)
  }

  /** The moves the rules of the generator allow from `p`, stated without the
      generator: a move from `p` to an empty square on the board, one or two
      squares away on a diagonal, in a direction the piece may go, and, for a
      two-square move, over a square holding a piece of a different kind. */
  ghost predicate IsGenerated(g: seq<seq<Square>>, p: Pos, m: Move)
    requires IsBoard(g) && IsValidPosition(p)
  {
    var piece := PieceAt(g, p);
    var dr, dc := m.to.row - p.row, m.to.col - p.col;
    && m.from == p
    && IsValidPosition(m.to)
    && PieceAt(g, m.to) == Empty
    && (Abs(dr) == 1 || Abs(dr) == 2) && Abs(dc) == Abs(dr)
    && MayGo(piece, dr)
    && (Abs(dr) == 2 ==>
          var jumped := PieceAt(g, Pos(Toward(p.row, m.to.row), Toward(p.col, m.to.col)));
          jumped != Empty && jumped != piece)
  }

  /** One step from `x` in the direction of `y`. */
  function Toward(x: int, y: int): int {
    if y > x then x + 1 else x - 1
  }

  lemma MovesFromUnfolds(g: seq<seq<Square>>, p: Pos)
    requires IsBoard(g) && IsValidPosition(p)
    ensures MovesFrom(g, p) == DirectionMoves(g, p, (1, 1)) + DirectionMoves(g, p, (1, -1)) +
                               DirectionMoves(g, p, (-1, 1)) + DirectionMoves(g, p, (-1, -1))
  {
    assert MovesUpTo(g, p, 1) == DirectionMoves(g, p, (1, 1));
    assert MovesUpTo(g, p, 2) == MovesUpTo(g, p, 1) + DirectionMoves(g, p, (1, -1));
    assert MovesUpTo(g, p, 3) == MovesUpTo(g, p, 2) + DirectionMoves(g, p, (-1, 1));
  }

  lemma StepMoveExactly(g: seq<seq<Square>>, p: Pos, d: (int, int), m: Move)
    requires IsBoard(g) && IsValidPosition(p) && d in Directions
    ensures m in StepMove(g, p, d) <==> IsGenerated(g, p, m) && m.to == Pos(p.row + d.0, p.col + d.1)
  {
  }

  lemma JumpMoveExactly(g: seq<seq<Square>>, p: Pos, d: (int, int), m: Move)
    requires IsBoard(g) && IsValidPosition(p) && d in Directions
    ensures m in JumpMove(g, p, d) <==> IsGenerated(g, p, m) && m.to == Pos(p.row + 2 * d.0, p.col + 2 * d.1)
  {
  }

  /** The jump test in the order the generator makes it: the square two along
      first, then the square in between, which needs no bounds test of its own
      because it is on the board whenever the square two along is, and last
      the direction. */
  lemma JumpMoveInOrder(g: seq<seq<Square>>, p: Pos, d: (int, int))
    requires IsBoard(g) && IsValidPosition(p) && d in Directions
    ensures var jump := Pos(p.row + 2 * d.0, p.col + 2 * d.1);
            var between := Pos(p.row + d.0, p.col + d.1);
            && (IsValidPosition(jump) ==> IsValidPosition(between))
            && JumpMove(g, p, d) ==
                 if IsValidPosition(jump) && PieceAt(g, jump) == Empty
                 then if PieceAt(g, between) != Empty && PieceAt(g, between) != PieceAt(g, p)
                      then if MayGo(PieceAt(g, p), d.0) then [Move(p, jump)] else []
                      else []
                 else []
  {
  }

  /** One direction's moves are exactly the generated moves one or two squares
      along that direction. */
  lemma DirectionMovesExactly(g: seq<seq<Square>>, p: Pos, d: (int, int), m: Move)
    requires IsBoard(g) && IsValidPosition(p) && d in Directions
    ensures m in DirectionMoves(g, p, d) <==>
              IsGenerated(g, p, m) &&
              (m.to == Pos(p.row + d.0, p.col + d.1) || m.to == Pos(p.row + 2 * d.0, p.col + 2 * d.1))
  {
    StepMoveExactly(g, p, d, m);
    JumpMoveExactly(g, p, d, m);
  }

  /** Every move the rules allow is generated. */
  lemma MovesFromComplete(g: seq<seq<Square>>, p: Pos, m: Move)
    requires IsBoard(g) && IsValidPosition(p) && IsGenerated(g, p, m)
    ensures m in MovesFrom(g, p)
  {
    MovesFromUnfolds(g, p);
    var d := (if m.to.row > p.row then 1 else -1, if m.to.col > p.col then 1 else -1);
    assert d in Directions;
    DirectionMovesExactly(g, p, d, m);
    assert m in DirectionMoves(g, p, d);
  }

  /** Every generated move is allowed by the rules. */
  lemma MovesFromSound(g: seq<seq<Square>>, p: Pos, m: Move)
    requires IsBoard(g) && IsValidPosition(p) && m in MovesFrom(g, p)
    ensures IsGenerated(g, p, m)
  {
    MovesFromUnfolds(g, p);
    if m in DirectionMoves(g, p, (1, 1)) {
      DirectionMovesExactly(g, p, (1, 1), m);
    } else if m in DirectionMoves(g, p, (1, -1)) {
      DirectionMovesExactly(g, p, (1, -1), m);
    } else if m in DirectionMoves(g, p, (-1, 1)) {
      DirectionMovesExactly(g, p, (-1, 1), m);
    } else {
      DirectionMovesExactly(g, p, (-1, -1), m);
    }
  }

  /** The generator is sound and complete for its own rules: a move is
      generated from `p` exactly when it satisfies IsGenerated. */
  lemma MovesFromExactly(g: seq<seq<Square>>, p: Pos, m: Move)
    requires IsBoard(g) && IsValidPosition(p)
    ensures m in MovesFrom(g, p) <==> IsGenerated(g, p, m)
  {
    if IsGenerated(g, p, m) {
      MovesFromComplete(g, p, m);
    }
    if m in MovesFrom(g, p) {
      MovesFromSound(g, p, m);
    }
  }

  /** Every generated move stays on the board. */
  lemma MovesFromInBounds(g: seq<seq<Square>>, p: Pos)
    requires IsBoard(g) && IsValidPosition(p)
    ensures InBounds(MovesFrom(g, p))
  {
    forall k | 0 <= k < |MovesFrom(g, p)|
      ensures IsValidPosition(MovesFrom(g, p)[k].from) && IsValidPosition(MovesFrom(g, p)[k].to)
    {
      MovesFromExactly(g, p, MovesFrom(g, p)[k]);
    }
  }

  /** The moves generated from `p` depend only on the pieces, not on the
      highlight flags. */
  lemma MovesFromIgnoresHighlights(g: seq<seq<Square>>, h: seq<seq<Square>>, p: Pos)
    requires IsBoard(g) && IsBoard(h) && IsValidPosition(p)
    requires forall i, j :: 0 <= i < Size && 0 <= j < Size ==> g[i][j].piece == h[i][j].piece
    ensures MovesFrom(g, p) == MovesFrom(h, p)
  {
    DirectionMovesIgnoreHighlights(g, h, p, (1, 1));
    DirectionMovesIgnoreHighlights(g, h, p, (1, -1));
    DirectionMovesIgnoreHighlights(g, h, p, (-1, 1));
    DirectionMovesIgnoreHighlights(g, h, p, (-1, -1));
    MovesFromUnfolds(g, p);
    MovesFromUnfolds(h, p);
  }

  lemma DirectionMovesIgnoreHighlights(g: seq<seq<Square>>, h: seq<seq<Square>>, p: Pos, d: (int, int))
    requires IsBoard(g) && IsBoard(h) && IsValidPosition(p)
    requires forall i, j :: 0 <= i < Size && 0 <= j < Size ==> g[i][j].piece == h[i][j].piece
    ensures DirectionMoves(g, p, d) == DirectionMoves(h, p, d)
  {
    assert StepMove(g, p, d) == StepMove(h, p, d);
    assert JumpMove(g, p, d) == JumpMove(h, p, d);
  }

  predicate InBounds(moves: seq<Move>) {
    forall k :: 0 <= k < |moves| ==> IsValidPosition(moves[k].from) && IsValidPosition(moves[k].to)
  }

  // ---------------------------------------------------------------------------
  // The moves of a whole side

  /** The moves generated for `player`'s pieces among the first `n` squares of
      row `r`, square by square. */
  function RowMoves(g: seq<seq<Square>>, player: Piece, r: nat, n: nat): seq<Move>
    requires IsBoard(g) && r < Size && n <= Size
  {
    if n == 0 then []
    else RowMoves(g, player, r, n - 1) +
         (if Owns(g[r][n - 1].piece, player) then MovesFrom(g, Pos(r, n - 1)) else [])
  }

  /** The moves generated for `player`'s pieces in the first `n` rows. */
  function BoardMoves(g: seq<seq<Square>>, player: Piece, n: nat): seq<Move>
    requires IsBoard(g) && n <= Size
  {
    if n == 0 then [] else BoardMoves(g, player, n - 1) + RowMoves(g, player, n - 1, Size)
  }

  /** All moves open to `player`, in row-major order of the moving pieces. */
  function AllMoves(g: seq<seq<Square>>, player: Piece): seq<Move>
    requires IsBoard(g)
  {
    BoardMoves(g, player, Size)
  }

  lemma {:induction false} RowMovesExactly(g: seq<seq<Square>>, player: Piece, r: nat, n: nat, m: Move)
    requires IsBoard(g) && r < Size && n <= Size
    ensures m in RowMoves(g, player, r, n) <==>
              m.from.row == r && 0 <= m.from.col < n &&
              Owns(PieceAt(g, m.from), player) && IsGenerated(g, m.from, m)
  {
    if n > 0 {
      RowMovesExactly(g, player, r, n - 1, m);
      MovesFromExactly(g, Pos(r, n - 1), m);
    }
  }

  lemma {:induction false} BoardMovesExactly(g: seq<seq<Square>>, player: Piece, n: nat, m: Move)
    requires IsBoard(g) && n <= Size
    ensures m in BoardMoves(g, player, n) <==>
              0 <= m.from.row < n && 0 <= m.from.col < Size &&
              Owns(PieceAt(g, m.from), player) && IsGenerated(g, m.from, m)
  {
    if n > 0 {
      BoardMovesExactly(g, player, n - 1, m);
      RowMovesExactly(g, player, n - 1, Size, m);
    }
  }

  /** A side's move list holds exactly the generated moves of its men and kings. */
  lemma AllMovesExactly(g: seq<seq<Square>>, player: Piece, m: Move)
    requires IsBoard(g)
    ensures m in AllMoves(g, player) <==>
              IsValidPosition(m.from) && Owns(PieceAt(g, m.from), player) && IsGenerated(g, m.from, m)
  {
    BoardMovesExactly(g, player, Size, m);
  }

  lemma AllMovesInBounds(g: seq<seq<Square>>, player: Piece)
    requires IsBoard(g)
    ensures InBounds(AllMoves(g, player))
  {
    forall k | 0 <= k < |AllMoves(g, player)|
      ensures IsValidPosition(AllMoves(g, player)[k].from) && IsValidPosition(AllMoves(g, player)[k].to)
    {
      AllMovesExactly(g, player, AllMoves(g, player)[k]);
    }
  }

  /** Men only move towards the far side (player one up the board, player two
      down); an empty square has no moves. */
  lemma MenMoveForward(g: seq<seq<Square>>, p: Pos, m: Move)
    requires IsBoard(g) && IsValidPosition(p) && m in MovesFrom(g, p)
    ensures PieceAt(g, p) != Empty
    ensures PieceAt(g, p) == PlayerOne ==> m.to.row < p.row
    ensures PieceAt(g, p) == PlayerTwo ==> m.to.row > p.row
  {
    MovesFromExactly(g, p, m);
  }

  /** The capture test compares the jumped piece with the mover's exact kind,
      so a man may jump a king of its own side: on the starting board with a
      player-one king put on (4, 1), the player-one man on (5, 0) may jump it. */
  lemma SameSideCapture()
    ensures var g := WithPiece(InitialBoard(), Pos(4, 1), PlayerOneKing);
            && PieceAt(g, Pos(5, 0)) == PlayerOne && PieceAt(g, Pos(4, 1)) == PlayerOneKing
            && Move(Pos(5, 0), Pos(3, 2)) in MovesFrom(g, Pos(5, 0))
  {
    var g := WithPiece(InitialBoard(), Pos(4, 1), PlayerOneKing);
    var m := Move(Pos(5, 0), Pos(3, 2));
    OddIsRemainder(5);
    assert PieceAt(g, Pos(5, 0)) == PlayerOne;
    assert PieceAt(g, m.to) == Empty;
    assert Pos(Toward(5, 3), Toward(0, 2)) == Pos(4, 1);
    assert IsGenerated(g, Pos(5, 0), m);
    MovesFromExactly(g, Pos(5, 0), m);
  }

  // ---------------------------------------------------------------------------
  // Executing a move

  /** `g` with the piece on square `p` replaced by `piece`; the highlight stays. */
  function WithPiece(g: seq<seq<Square>>, p: Pos, piece: Piece): (h: seq<seq<Square>>)
    requires IsBoard(g) && IsValidPosition(p)
    ensures IsBoard(h)
    ensures h[p.row][p.col] == Square(piece, g[p.row][p.col].isHighlighted)
    ensures forall i, j :: 0 <= i < Size && 0 <= j < Size && (i != p.row || j != p.col) ==> h[i][j] == g[i][j]
  {
    Set(g, p.row, p.col, g[p.row][p.col].(piece := piece))
  }

  /** Writing the piece on a square twice leaves only the second piece. */
  lemma WithPieceTwice(g: seq<seq<Square>>, p: Pos, a: Piece, b: Piece)
    requires IsBoard(g) && IsValidPosition(p)
    ensures WithPiece(WithPiece(g, p, a), p, b) == WithPiece(g, p, b)
  {
    SetTwice(g, p.row, p.col, g[p.row][p.col].(piece := a), g[p.row][p.col].(piece := b));
  }

  /** The piece that lands on row `row`: a man reaching the far row is crowned. */
  function Promoted(piece: Piece, row: int): Piece {
    if piece == PlayerOne && row == 0 then PlayerOneKing
    else if piece == PlayerTwo && row == Size - 1 then PlayerTwoKing
    else piece
  }

  predicate IsJump(m: Move) {
    Abs(m.from.row - m.to.row) == 2
  }

  /** The square between the two ends of a move. */
  function Midpoint(m: Move): Pos {
    Pos((m.from.row + m.to.row) / 2, (m.from.col + m.to.col) / 2)
  }

  /** The piece on square `p` once `m` has been carried out: a jumped square is
      emptied, the destination receives the (possibly crowned) mover and the
      origin is emptied; later writes of the move win over earlier ones. */
  function PieceAfter(g: seq<seq<Square>>, m: Move, p: Pos): Piece
    requires IsBoard(g) && IsValidPosition(m.from) && IsValidPosition(m.to) && IsValidPosition(p)
  {
    if IsJump(m) && p == Midpoint(m) then Empty
    else if p == m.to then Promoted(PieceAt(g, m.from), m.to.row)
    else if p == m.from then Empty
    else PieceAt(g, p)
  }

  /** The board once `m` has been carried out; highlights are left as they were. */
  function AfterMove(g: seq<seq<Square>>, m: Move): (h: seq<seq<Square>>)
    requires IsBoard(g) && IsValidPosition(m.from) && IsValidPosition(m.to)
    ensures IsBoard(h)
    ensures forall i, j {:trigger h[i][j]} :: 0 <= i < Size && 0 <= j < Size ==>
              h[i][j] == g[i][j].(piece := PieceAfter(g, m, Pos(i, j)))
  {
    seq(Size, i requires 0 <= i < Size =>
      seq(Size, j requires 0 <= j < Size => g[i][j].(piece := PieceAfter(g, m, Pos(i, j)))))
  }

  /** What a generated move does: the origin is emptied, the destination holds
      the mover (crowned on the far row), a jump empties the square it passes
      over, which held a piece of a different kind, and no other square and no
      highlight changes. */
  lemma ExecuteMoveEffects(g: seq<seq<Square>>, m: Move)
    requires IsBoard(g) && IsValidPosition(m.from) && m in MovesFrom(g, m.from)
    ensures IsValidPosition(m.to)
    ensures var h := AfterMove(g, m);
      && PieceAt(h, m.from) == Empty
      && PieceAt(h, m.to) == Promoted(PieceAt(g, m.from), m.to.row)
      && (IsJump(m) ==> PieceAt(g, Midpoint(m)) != Empty &&
                        PieceAt(g, Midpoint(m)) != PieceAt(g, m.from) &&
                        PieceAt(h, Midpoint(m)) == Empty)
      && (forall i, j {:trigger h[i][j]} ::
            0 <= i < Size && 0 <= j < Size && Pos(i, j) != m.from && Pos(i, j) != m.to &&
            (IsJump(m) ==> Pos(i, j) != Midpoint(m))
            ==> h[i][j] == g[i][j])
      && (forall i, j :: 0 <= i < Size && 0 <= j < Size ==> h[i][j].isHighlighted == g[i][j].isHighlighted)
  {
    MovesFromExactly(g, m.from, m);
  }

  // ---------------------------------------------------------------------------
  // Highlights

  /** The board with every highlight switched off. */
  function Cleared(g: seq<seq<Square>>): (h: seq<seq<Square>>)
    requires IsBoard(g)
    ensures IsBoard(h)
    ensures forall i, j :: 0 <= i < Size && 0 <= j < Size ==> h[i][j] == g[i][j].(isHighlighted := false)
  {
    seq(Size, i requires 0 <= i < Size =>
      seq(Size, j requires 0 <= j < Size => g[i][j].(isHighlighted := false)))
  }

  /** Some move of `moves` ends on `p`. */
  predicate IsTarget(moves: seq<Move>, p: Pos) {
    exists k :: 0 <= k < |moves| && moves[k].to == p
  }

  /** The board with the destination of every move of `moves` highlighted. */
  function Highlighted(g: seq<seq<Square>>, moves: seq<Move>): (h: seq<seq<Square>>)
    requires IsBoard(g)
    ensures IsBoard(h)
    ensures forall i, j {:trigger h[i][j]} :: 0 <= i < Size && 0 <= j < Size ==>
              h[i][j] == g[i][j].(isHighlighted := g[i][j].isHighlighted || IsTarget(moves, Pos(i, j)))
  {
    seq(Size, i requires 0 <= i < Size =>
      seq(Size, j requires 0 <= j < Size =>
        g[i][j].(isHighlighted := g[i][j].isHighlighted || IsTarget(moves, Pos(i, j)))))
  }

  /** The first move of `moves` that ends on `p`, if any. */
  function FirstMoveTo(moves: seq<Move>, p: Pos): (r: Option<Move>)
    ensures r.None? <==> !IsTarget(moves, p)
    ensures r.Some? ==> exists k :: 0 <= k < |moves| && moves[k] == r.value && r.value.to == p &&
                                    forall l :: 0 <= l < k ==> moves[l].to != p
  {
    if moves == [] then None
    else if moves[0].to == p then Some(moves[0])
    else
      var r := FirstMoveTo(moves[1..], p);
      assert forall m :: m in moves ==> m == moves[0] || m in moves[1..];
      assert r.Some? ==> r.value in moves;
      r
  }

  /** The shape of a generated move: it leaves an occupied square for an empty
      one, and a jump passes over a third square holding a piece of a
      different kind. */
  lemma GeneratedShape(g: seq<seq<Square>>, m: Move)
    requires IsBoard(g) && IsValidPosition(m.from) && m in MovesFrom(g, m.from)
    ensures IsValidPosition(m.to) && m.from != m.to
    ensures PieceAt(g, m.from) != Empty && PieceAt(g, m.to) == Empty
    ensures IsJump(m) ==>
              && IsValidPosition(Midpoint(m)) && Midpoint(m) != m.from && Midpoint(m) != m.to
              && PieceAt(g, Midpoint(m)) != Empty && PieceAt(g, Midpoint(m)) != PieceAt(g, m.from)
  {
    MovesFromExactly(g, m.from, m);
  }

  /** The board after a move, as the sequence of square writes that carries it out. */
  lemma AfterMoveAsWrites(g: seq<seq<Square>>, m: Move)
    requires IsBoard(g) && IsValidPosition(m.from) && IsValidPosition(m.to)
    ensures IsJump(m) ==> IsValidPosition(Midpoint(m)) && Midpoint(m) != m.from && Midpoint(m) != m.to
    ensures var g2 := WithPiece(WithPiece(g, m.from, Empty), m.to, Promoted(PieceAt(g, m.from), m.to.row));
            AfterMove(g, m) == if IsJump(m) then WithPiece(g2, Midpoint(m), Empty) else g2
  {
    var g2 := WithPiece(WithPiece(g, m.from, Empty), m.to, Promoted(PieceAt(g, m.from), m.to.row));
    var g3 := if IsJump(m) then WithPiece(g2, Midpoint(m), Empty) else g2;
    Extensionality(AfterMove(g, m), g3, Size, Size);
  }

  /** A step keeps every piece on the board; a jump removes exactly one. */
  lemma CaptureRemovesOnePiece(g: seq<seq<Square>>, m: Move)
    requires IsBoard(g) && IsValidPosition(m.from) && m in MovesFrom(g, m.from)
    ensures IsValidPosition(m.to)
    ensures Count(AfterMove(g, m), Empty) == Count(g, Empty) + (if IsJump(m) then 1 else 0)
  {
    GeneratedShape(g, m);
    AfterMoveAsWrites(g, m);
    var g1: seq<seq<Square>> := WithPiece(g, m.from, Empty);
    CountAfterSet(g, Empty, m.from.row, m.from.col, g[m.from.row][m.from.col].(piece := Empty));
    var promoted := Promoted(PieceAt(g, m.from), m.to.row);
    var g2: seq<seq<Square>> := WithPiece(g1, m.to, promoted);
    CountAfterSet(g1, Empty, m.to.row, m.to.col, g1[m.to.row][m.to.col].(piece := promoted));
    if IsJump(m) {
      var mid := Midpoint(m);
      CountAfterSet(g2, Empty, mid.row, mid.col, g2[mid.row][mid.col].(piece := Empty));
    }
  }

  // ---------------------------------------------------------------------------
  // The view model

  class CheckersViewModel {
    var board: seq<seq<Square>>
    var currentPlayer: Piece
    var winner: Option<Piece>
    var possibleMoves: seq<Move>

    /** The board is 8 by 8, the side to move is one of the two players and
        every move on offer stays on the board. */
    ghost predicate Valid()
      reads this
    {
      && IsBoard(board)
      && (currentPlayer == PlayerOne || currentPlayer == PlayerTwo)
      && InBounds(possibleMoves)
    }

    /** The state switchPlayer leaves behind when it starts from side `previous`
        and winner `previousWinner`: the other side is to move, its moves are on
        offer, and a side left without moves has lost. */
    ghost predicate SwitchedFrom(previous: Piece, previousWinner: Option<Piece>)
      requires IsBoard(board)
      reads this
    {
      && currentPlayer == Opponent(previous)
      && possibleMoves == AllMoves(board, currentPlayer)
      && winner == if possibleMoves == [] then Some(Opponent(currentPlayer)) else previousWinner
    }

    constructor ()
      ensures Valid()
      ensures board == InitialBoard() && currentPlayer == PlayerOne && winner == None && possibleMoves == []
    {
      board := seq(Size, _ => seq(Size, _ => Square(Empty, false)));
      currentPlayer := PlayerOne;
      winner := None;
      possibleMoves := [];
      new;
      SetupBoard();
    }

    /** Starts a new game; the move list is left as it was. */
    method SetupBoard()
      requires Valid()
      modifies this`board, this`winner, this`currentPlayer
      ensures Valid()
      ensures board == InitialBoard() && winner == None && currentPlayer == PlayerOne
      ensures possibleMoves == old(possibleMoves)
    {
      winner := None;
      currentPlayer := PlayerOne;
      for i := 0 to Size
        invariant IsBoard(board) && winner == None && currentPlayer == PlayerOne
        invariant forall r, c :: 0 <= r < i && 0 <= c < Size ==> board[r][c] == InitialBoard()[r][c]
      {
        for j := 0 to Size
          invariant IsBoard(board) && winner == None && currentPlayer == PlayerOne
          invariant forall r, c :: 0 <= r < i && 0 <= c < Size ==> board[r][c] == InitialBoard()[r][c]
          invariant forall c :: 0 <= c < j ==> board[i][c] == InitialBoard()[i][c]
        {
          board := Set(board, i, j, Square(Empty, false));
          OddIsRemainder(i + j);
          if (i + j) % 2 == 1 {
            if i < 3 {
              board := Set(board, i, j, board[i][j].(piece := PlayerTwo));
            } else if i > 4 {
              board := Set(board, i, j, board[i][j].(piece := PlayerOne));
            }
          }
        }
      }
      Extensionality(board, InitialBoard(), Size, Size);
    }

    /** Appends the moves of the piece at `position` to the move list. */
    method CalculateMoves(position: Pos)
      requires IsBoard(board) && IsValidPosition(position)
      modifies this`possibleMoves
      ensures possibleMoves == old(possibleMoves) + MovesFrom(board, position)
    {
      var g: seq<seq<Square>> := board;
      var piece := g[position.row][position.col].piece;
      var isKing := piece == PlayerOneKing || piece == PlayerTwoKing;
      for k := 0 to |Directions|
        invariant possibleMoves == old(possibleMoves) + MovesUpTo(g, position, k)
      {
        var dir := Directions[k];
        var mayGo := isKing || (piece == PlayerOne && dir.0 < 0) || (piece == PlayerTwo && dir.0 > 0);
        assert mayGo == MayGo(PieceAt(g, position), dir.0);
        ghost var before := possibleMoves;
        var simpleMovePos := Pos(position.row + dir.0, position.col + dir.1);
        var jumpMovePos := Pos(position.row + 2 * dir.0, position.col + 2 * dir.1);
        if IsValidPosition(simpleMovePos) && g[simpleMovePos.row][simpleMovePos.col].piece == Empty {
          if mayGo {
            possibleMoves := possibleMoves + [Move(position, simpleMovePos)];
          }
        }
        assert possibleMoves == before + StepMove(g, position, dir);
        ghost var afterStep := possibleMoves;
        JumpMoveInOrder(g, position, dir);
        if IsValidPosition(jumpMovePos) && g[jumpMovePos.row][jumpMovePos.col].piece == Empty {
          var betweenPos := Pos(position.row + dir.0, position.col + dir.1);
          var between := g[betweenPos.row][betweenPos.col].piece;
          if between != Empty && between != piece {
            if mayGo {
              possibleMoves := possibleMoves + [Move(position, jumpMovePos)];
            }
          }
        }
        assert possibleMoves == afterStep + JumpMove(g, position, dir);
      }
    }

    /** Replaces the move list with every move of the side to move. */
    method CalculateAllPossibleMoves()
      requires Valid()
      modifies this`possibleMoves
      ensures Valid()
      ensures possibleMoves == AllMoves(board, currentPlayer)
    {
      possibleMoves := [];
      for row := 0 to Size
        invariant possibleMoves == BoardMoves(board, currentPlayer, row)
      {
        for col := 0 to Size
          invariant possibleMoves == BoardMoves(board, currentPlayer, row) + RowMoves(board, currentPlayer, row, col)
        {
          if board[row][col].piece == currentPlayer ||
             board[row][col].piece == (if currentPlayer == PlayerOne then PlayerOneKing else PlayerTwoKing)
          {
            CalculateMoves(Pos(row, col));
          }
        }
      }
      AllMovesInBounds(board, currentPlayer);
    }

    /** Carries out `move` and empties the move list. */
    method ExecuteMove(move: Move)
      requires Valid() && IsValidPosition(move.from) && IsValidPosition(move.to)
      modifies this`board, this`possibleMoves
      ensures Valid()
      ensures board == AfterMove(old(board), move) && possibleMoves == []
    {
      AfterMoveAsWrites(board, move);
      var piece := board[move.from.row][move.from.col].piece;
      board := WithPiece(board, move.from, Empty);
      ghost var g1 := board;
      board := WithPiece(board, move.to, piece);
      if (piece == PlayerOne && move.to.row == 0) || (piece == PlayerTwo && move.to.row == 7) {
        board := WithPiece(board, move.to, if piece == PlayerOne then PlayerOneKing else PlayerTwoKing);
        WithPieceTwice(g1, move.to, piece, Promoted(piece, move.to.row));
      }
      if IsJump(move) {
        board := WithPiece(board, Midpoint(move), Empty);
      }
      possibleMoves := [];
    }

    /** Hands the turn to the other side and declares the side to move beaten
        when it has no move. */
    method SwitchPlayer()
      requires Valid()
      modifies this`currentPlayer, this`winner, this`possibleMoves
      ensures Valid() && SwitchedFrom(old(currentPlayer), old(winner))
    {
      currentPlayer := if currentPlayer == PlayerOne then PlayerTwo else PlayerOne;
      CalculateAllPossibleMoves();
      if possibleMoves == [] {
        winner := Some(if currentPlayer == PlayerOne then PlayerTwo else PlayerOne);
      }
    }

    method ClearHighlights()
      requires IsBoard(board)
      modifies this`board
      ensures board == Cleared(old(board))
    {
      for row := 0 to Size
        invariant IsBoard(board)
        invariant forall r, c :: 0 <= r < Size && 0 <= c < Size ==>
                    board[r][c] == if r < row then Cleared(old(board))[r][c] else old(board)[r][c]
      {
        for col := 0 to Size
          invariant IsBoard(board)
          invariant forall r, c :: 0 <= r < Size && 0 <= c < Size ==>
                      board[r][c] == if r < row || (r == row && c < col) then Cleared(old(board))[r][c] else old(board)[r][c]
        {
          board := Set(board, row, col, board[row][col].(isHighlighted := false));
        }
      }
      Extensionality(board, Cleared(old(board)), Size, Size);
    }

    /** Highlights the destination of every move on offer. */
    method HighlightMoves()
      requires Valid()
      modifies this`board
      ensures board == Highlighted(old(board), possibleMoves)
    {
      for k := 0 to |possibleMoves|
        invariant IsBoard(board)
        invariant forall r, c :: 0 <= r < Size && 0 <= c < Size ==>
                    board[r][c] == Highlighted(old(board), possibleMoves[..k])[r][c]
      {
        var move := possibleMoves[k];
        board := Set(board, move.to.row, move.to.col, board[move.to.row][move.to.col].(isHighlighted := true));
        assert possibleMoves[..k + 1][k] == move;
        assert forall l :: 0 <= l < k ==> possibleMoves[..k + 1][l] == possibleMoves[..k][l];
      }
      assert possibleMoves[..|possibleMoves|] == possibleMoves;
      Extensionality(board, Highlighted(old(board), possibleMoves), Size, Size);
    }

    /** A tap on square (row, col). Once the game is won nothing happens. On a
        highlighted square the first move on offer that ends there is carried
        out and the turn passes; the result says whether the computer's reply
        is then scheduled, which happens whenever player two is to move. On any
        other square the highlights are cleared and, when the square holds a
        piece of the side to move, that piece's moves are added to the offer
        and highlighted. */
    method TapSquare(row: int, col: int) returns (computerScheduled: bool)
      requires Valid() && IsValidPosition(Pos(row, col))
      modifies this`board, this`currentPlayer, this`winner, this`possibleMoves
      ensures Valid()
      ensures old(winner).Some? ==>
                && board == old(board) && possibleMoves == old(possibleMoves)
                && currentPlayer == old(currentPlayer) && winner == old(winner) && !computerScheduled
      ensures old(winner).None? && old(board)[row][col].isHighlighted ==>
                match FirstMoveTo(old(possibleMoves), Pos(row, col))
                case None =>
                  && board == old(board) && possibleMoves == old(possibleMoves)
                  && currentPlayer == old(currentPlayer) && winner == old(winner) && !computerScheduled
                case Some(m) =>
                  && board == AfterMove(old(board), m)
                  && SwitchedFrom(old(currentPlayer), old(winner))
                  && computerScheduled == (currentPlayer == PlayerTwo)
      ensures old(winner).None? && !old(board)[row][col].isHighlighted ==>
                && currentPlayer == old(currentPlayer) && winner == old(winner) && !computerScheduled
                && if CanMovePieceAt(old(board), row, col, old(currentPlayer)) then
                     && possibleMoves == old(possibleMoves) + MovesFrom(old(board), Pos(row, col))
                     && board == Highlighted(Cleared(old(board)), possibleMoves)
                   else
                     possibleMoves == old(possibleMoves) && board == Cleared(old(board))
    {
      computerScheduled := false;
      if winner != None {
        return;
      }
      var selectedSquare := board[row][col];
      if selectedSquare.isHighlighted {
        match FirstMoveTo(possibleMoves, Pos(row, col))
        case None =>
        case Some(move) =>
          ExecuteMove(move);
          SwitchPlayer();
          // The computer plays player two.
          computerScheduled := currentPlayer == PlayerTwo;
      } else {
        ClearHighlights();
        if CanMovePieceAt(board, row, col, currentPlayer) {
          MovesFromIgnoresHighlights(old(board), board, Pos(row, col));
          CalculateMoves(Pos(row, col));
          MovesFromInBounds(board, Pos(row, col));
          HighlightMoves();
        }
      }
    }

    /** The computer's reply, run after its thinking delay: with no move on
        offer the turn passes straight back, otherwise the move at index `pick`
        (the random choice) is carried out and the turn passes. */
    method ComputerMove(pick: nat)
      requires Valid() && (possibleMoves != [] ==> pick < |possibleMoves|)
      modifies this`board, this`currentPlayer, this`winner, this`possibleMoves
      ensures Valid()
      ensures old(possibleMoves) == [] ==> board == old(board)
      ensures old(possibleMoves) != [] ==> board == AfterMove(old(board), old(possibleMoves)[pick])
      ensures SwitchedFrom(old(currentPlayer), old(winner))
    {
      if possibleMoves == [] {
        SwitchPlayer();
        return;
      }
      var move := possibleMoves[pick];
      ExecuteMove(move);
      SwitchPlayer();
    }
  }
}
