/** The position layer of position.go: an immutable position value, the transition made by a
    move, the FEN and X-FEN printers and the position comparison used for repetitions.
    The move generator, the check test, the board's own text and binary forms and the board
    update are not part of this model; they are the fields of an Engine value that every
    operation needing them receives. */
module Positions {
  import opened Wrappers
  import opened Chess
  import opened Castling
  import opened Text

  /** The state of a game without regard to its outcome. An absent en-passant square stands
      for the library's NoSquare. */
  datatype Position = Position(
    board: Board,
    turn: Color,
    castleRights: CastleRights,
    enPassantSquare: Option<Square>,
    halfMoveClock: int,
    moveCount: int,
    inCheck: bool)

  /** The collaborators this layer calls but that are defined elsewhere in the library:
      the legal-move generator, the outcome method, the check test (given the board and the
      side to move), the board update of a move, and the board's FEN placement text and
      96-byte binary form. */
  datatype Engine = Engine(
    calcMoves: Position -> seq<Move>,
    status: Position -> Method,
    isInCheck: (Board, Color) -> bool,
    updateBoard: (Board, Move) -> Board,
    boardString: Board -> string,
    boardBytes: Board -> seq<byte>,
    boardFromBytes: seq<byte> -> Option<Board>)

  /** updateEnPassantSquare: after a pawn goes from rank 2 to rank 4 with White to move, or
      from rank 7 to rank 5 with Black to move, the square it passed over; no square after any
      other move. The pawn's own color is not checked. */
  function UpdateEnPassantSquare(p: Position, m: Move): (r: Option<Square>)
    ensures r.Some? <==>
      p.board[m.s1].Type() == Pawn &&
      ((p.turn == White && RankOf(m.s1) == 1 && RankOf(m.s2) == 3) ||
       (p.turn == Black && RankOf(m.s1) == 6 && RankOf(m.s2) == 4))
    ensures r.Some? ==> FileOf(r.value) == FileOf(m.s2)
    ensures r.Some? && p.turn == White ==> RankOf(r.value) == 2
    ensures r.Some? && p.turn == Black ==> RankOf(r.value) == 5
  {
    if p.board[m.s1].Type() != Pawn then None
    else if p.turn == White && RankOf(m.s1) == 1 && RankOf(m.s2) == 3 then Some(m.s2 - 8)
    else if p.turn == Black && RankOf(m.s1) == 6 && RankOf(m.s2) == 4 then Some(m.s2 + 8)
    else None
  }

  /** A straight double push leaves the en-passant square exactly halfway between the
      origin and the destination. */
  lemma DoublePushPassesOver(p: Position, m: Move)
    requires p.board[m.s1].Type() == Pawn
    requires (p.turn == White && RankOf(m.s1) == 1 && m.s2 == m.s1 + 16) ||
             (p.turn == Black && RankOf(m.s1) == 6 && m.s2 == m.s1 - 16)
    ensures UpdateEnPassantSquare(p, m) == Some((m.s1 + m.s2) / 2)
  {
  }

  /** Update: the position after move m, which is not checked for legality. */
  function Update(p: Position, m: Move, e: Engine): (r: Position)
    ensures r.turn == p.turn.Other()
    ensures r.moveCount == p.moveCount + 1 <==> p.turn == Black
    ensures r.moveCount == p.moveCount <==> p.turn != Black
    ensures p.board[m.s1].Type() == Pawn || m.HasTag(Capture) ==> r.halfMoveClock == 0
    ensures !(p.board[m.s1].Type() == Pawn || m.HasTag(Capture)) ==> r.halfMoveClock == p.halfMoveClock + 1
    ensures r.inCheck <==> m.HasTag(Check)
    ensures r.enPassantSquare == UpdateEnPassantSquare(p, m)
    ensures r.castleRights == UpdateCastleRights(p.castleRights, p.board, m)
    ensures r.board == e.updateBoard(p.board, m)
  {
    var moveCount := if p.turn == Black then p.moveCount + 1 else p.moveCount;
    var halfMove := if p.board[m.s1].Type() == Pawn || m.HasTag(Capture) then 0 else p.halfMoveClock + 1;
    Position(
      e.updateBoard(p.board, m),
      p.turn.Other(),
      UpdateCastleRights(p.castleRights, p.board, m),
      UpdateEnPassantSquare(p, m),
      halfMove,
      moveCount,
      m.HasTag(Check))
  }

  /** Two successive moves by the two colors advance the move number by exactly one. */
  lemma {:induction false} FullMoveAfterTwoPlies(p: Position, m1: Move, m2: Move, e: Engine)
    requires p.turn == White || p.turn == Black
    ensures Update(Update(p, m1, e), m2, e).moveCount == p.moveCount + 1
  {
    var q := Update(p, m1, e);
    assert q.turn != p.turn && q.turn != NoColor;
  }

  /** The fifty-move counter after a move never depends on anything but the old counter,
      the moved piece and the capture tag: quiet piece moves count up, the rest reset it. */
  lemma {:induction false} HalfMoveClockCountsQuietMoves(p: Position, ms: seq<Move>, e: Engine)
    requires forall i :: 0 <= i < |ms| ==> !ms[i].HasTag(Capture)
    requires forall i :: 0 <= i < |ms| ==> Replay(p, ms[..i], e).board[ms[i].s1].Type() != Pawn
    ensures Replay(p, ms, e).halfMoveClock == p.halfMoveClock + |ms|
    decreases |ms|
  {
    if |ms| > 0 {
      var init := ms[..|ms| - 1];
      forall i | 0 <= i < |init| ensures Replay(p, init[..i], e).board[init[i].s1].Type() != Pawn {
        assert init[..i] == ms[..i];
      }
      HalfMoveClockCountsQuietMoves(p, init, e);
      assert ms[..|ms| - 1] == init;
    }
  }

  /** The position after playing a sequence of moves one after another. */
  function Replay(p: Position, ms: seq<Move>, e: Engine): Position
    decreases |ms|
  {
    if |ms| == 0 then p else Update(Replay(p, ms[..|ms| - 1], e), ms[|ms| - 1], e)
  }

  /** The en-passant field of the FEN text: the square name, or "-" when there is none. */
  function EnPassantField(sq: Option<Square>): (s: string)
    ensures s == "-" <==> sq.None?
    ensures sq.Some? ==> ParseSquare(s) == sq
  {
    if sq.Some? then
      ParseSquareName(sq.value);
      SquareName(sq.value)
    else "-"
  }

  /** String: the six space-separated FEN fields, with the Shredder-FEN castling field in
      Chess960 mode. */
  function PositionString(p: Position, e: Engine): string {
    Join(Fields(p, e, RightsString(p.castleRights), EnPassantField(p.enPassantSquare)), ' ')
  }

  /** The six fields of a printed position: board, turn, castling, en passant and the two
      clocks, each formatted as the position printers format them. */
  function Fields(p: Position, e: Engine, castle: string, ep: string): (f: seq<string>)
    ensures |f| == 6
  {
    [e.boardString(p.board), p.turn.Name(), castle, ep, IntToString(p.halfMoveClock), IntToString(p.moveCount)]
  }

  lemma {:induction false} NoSpaceInRights(cr: CastleRights)
    ensures ' ' !in RightsString(cr)
  {
    var s := RightsLetters(cr);
    if s != "" {
      if cr.nineSixtyMode {
        var a := if cr.whiteKingSideCastle then UpperFile(cr.hSideRookStartingFile) else "";
        var b := if cr.whiteQueenSideCastle then UpperFile(cr.aSideRookStartingFile) else "";
        var c := if cr.blackKingSideCastle then LowerFile(cr.hSideRookStartingFile) else "";
        var d := if cr.blackQueenSideCastle then LowerFile(cr.aSideRookStartingFile) else "";
        assert s == a + b + c + d;
        assert ' ' !in a && ' ' !in b && ' ' !in c && ' ' !in d;
      } else {
        var a, b, c, d := NormalLettersParts(cr);
        assert ' ' !in a && ' ' !in b && ' ' !in c && ' ' !in d;
      }
    }
  }

  lemma NoSpaceInNumber(n: int)
    ensures ' ' !in IntToString(n)
  {
    var s := IntToString(n);
    if n >= 0 {
      assert forall i :: 0 <= i < |s| ==> IsDigit(s[i]);
    } else {
      assert s == "-" + NatToString(-n);
      assert forall i :: 1 <= i < |s| ==> s[i] == NatToString(-n)[i - 1];
    }
  }

  /** Six fields without spaces, joined with spaces, split back into the same six fields. */
  lemma {:induction false} FieldsSplit(p: Position, e: Engine, castle: string, ep: string)
    requires ' ' !in e.boardString(p.board) && ' ' !in castle && ' ' !in ep
    ensures Split(Join(Fields(p, e, castle, ep), ' '), ' ') == Fields(p, e, castle, ep)
  {
    var f := Fields(p, e, castle, ep);
    NoSpaceInNumber(p.halfMoveClock);
    NoSpaceInNumber(p.moveCount);
    assert ' ' !in p.turn.Name();
    forall i | 0 <= i < 6 ensures ' ' !in f[i] {
    }
    SplitJoin(f, ' ');
  }

  /** Whenever the board text has no space, the printed position splits back into exactly
      its six fields, so every field can be read back on its own. */
  lemma {:induction false} PositionStringFields(p: Position, e: Engine)
    requires ' ' !in e.boardString(p.board)
    ensures Split(PositionString(p, e), ' ') ==
      Fields(p, e, RightsString(p.castleRights), EnPassantField(p.enPassantSquare))
  {
    NoSpaceInRights(p.castleRights);
    assert ' ' !in EnPassantField(p.enPassantSquare);
    FieldsSplit(p, e, RightsString(p.castleRights), EnPassantField(p.enPassantSquare));
  }

  /** samePosition: equal board text, side to move, castling text and en-passant square;
      the clocks are not compared. */
  predicate SamePosition(p: Position, q: Position, e: Engine) {
    && e.boardString(p.board) == e.boardString(q.board)
    && p.turn == q.turn
    && RightsString(p.castleRights) == RightsString(q.castleRights)
    && p.enPassantSquare == q.enPassantSquare
  }

  /** The comparison is an equivalence relation. */
  lemma SamePositionEquivalence(p: Position, q: Position, r: Position, e: Engine)
    ensures SamePosition(p, p, e)
    ensures SamePosition(p, q, e) ==> SamePosition(q, p, e)
    ensures SamePosition(p, q, e) && SamePosition(q, r, e) ==> SamePosition(p, r, e)
  {
  }

  /** Positions that differ only in their clocks and check flag are the same position. */
  lemma SamePositionIgnoresClocks(p: Position, half: int, full: int, check: bool, e: Engine)
    ensures SamePosition(p, p.(halfMoveClock := half, moveCount := full, inCheck := check), e)
  {
  }

  // ---------------------------------------------------------------- X-FEN

  /** Whether some square in lo..hi (inclusive) holds the given piece. */
  predicate PieceIn(b: Board, piece: Piece, lo: int, hi: int) {
    exists sq: Square :: lo <= sq <= hi && b[sq] == piece
  }

  /** The square a map lookup of a rook file and a rank yields: the named square, or square 0
      (A1), the map's zero value, when the file is unknown. */
  function SquareOrZero(f: Option<File>, r: Rank): Square {
    if f.Some? then NewSquare(f.value, r) else 0
  }

  /** One X-FEN castling letter: nothing without the right; the rook file when a rook of that
      color stands beyond the stored file on that side; the bare letter otherwise. */
  function XFENLetter(right: bool, rookBeyond: bool, fileLetter: string, bare: string): string {
    if !right then "" else if rookBeyond then fileLetter else bare
  }

  /** The four X-FEN castling letters of a Chess960 position, in the order K, Q, k, q. */
  function XFENWhiteKing(p: Position): string {
    var h := p.castleRights.hSideRookStartingFile;
    XFENLetter(p.castleRights.whiteKingSideCastle, PieceIn(p.board, WhiteRook, SquareOrZero(h, 0) + 1, 7), UpperFile(h), "K")
  }

  function XFENWhiteQueen(p: Position): string {
    var a := p.castleRights.aSideRookStartingFile;
    XFENLetter(p.castleRights.whiteQueenSideCastle, PieceIn(p.board, WhiteRook, 0, SquareOrZero(a, 0) - 1), UpperFile(a), "Q")
  }

  function XFENBlackKing(p: Position): string {
    var h := p.castleRights.hSideRookStartingFile;
    XFENLetter(p.castleRights.blackKingSideCastle, PieceIn(p.board, BlackRook, SquareOrZero(h, 7) + 1, 63), LowerFile(h), "k")
  }

  function XFENBlackQueen(p: Position): string {
    var a := p.castleRights.aSideRookStartingFile;
    XFENLetter(p.castleRights.blackQueenSideCastle, PieceIn(p.board, BlackRook, 56, SquareOrZero(a, 7) - 1), LowerFile(a), "q")
  }

  /** The X-FEN castling field as XFENString writes it. In normal mode it is the ordinary FEN
      field. */
  function XFENCastleField(p: Position): string {
    if p.castleRights.nineSixtyMode then
      XFENWhiteKing(p) + XFENWhiteQueen(p) + XFENBlackKing(p) + XFENBlackQueen(p)
    else RightsString(p.castleRights)
  }

  /** The X-FEN castling field with "-" standing for no rights, as in every other FEN variant.
      XFENCastleField leaves the field empty for a Chess960 position without rights. */
  function XFENCastleText(p: Position): (c: string)
    ensures c != ""
    ensures XFENCastleField(p) != "" ==> c == XFENCastleField(p)
  {
    if XFENCastleField(p) == "" then "-" else XFENCastleField(p)
  }

  /** Scanning up from `from` to `to` for the piece, stopping at the first one found. */
  method ScanUp(b: Board, piece: Piece, from: int, to: Square) returns (found: bool)
    requires 0 <= from
    ensures found <==> PieceIn(b, piece, from, to)
  {
    found := false;
    var sq := from;
    while sq <= to
      invariant from <= sq
      invariant forall s: Square :: from <= s < sq ==> b[s] != piece
    {
      if b[sq] == piece {
        found := true;
        break;
      }
      sq := sq + 1;
    }
  }

  /** Scanning down from `from` to `downTo` for the piece, stopping at the first one found. */
  method ScanDown(b: Board, piece: Piece, from: int, downTo: Square) returns (found: bool)
    requires from < 64
    ensures found <==> PieceIn(b, piece, downTo, from)
  {
    found := false;
    var sq := from;
    while sq >= downTo
      invariant sq <= from
      invariant forall s: Square :: sq < s <= from ==> b[s] != piece
    {
      if b[sq] == piece {
        found := true;
        break;
      }
      sq := sq - 1;
    }
  }

  /** A king-side letter of XFENString: nothing without the right; otherwise the bare letter,
      replaced by the rook file letter when scanning from just past the stored rook file up to
      the corner finds the rook. */
  method KingSideLetter(right: bool, b: Board, rook: Piece, from: int, corner: Square, fileLetter: string, bare: string)
    returns (toAdd: string)
    requires 0 <= from
    ensures toAdd == XFENLetter(right, PieceIn(b, rook, from, corner), fileLetter, bare)
  {
    toAdd := "";
    if right {
      toAdd := bare;
      var found := ScanUp(b, rook, from, corner);
      if found {
        toAdd := fileLetter;
      }
    }
  }

  /** A queen-side letter of XFENString: nothing without the right; otherwise the bare letter,
      replaced by the rook file letter when scanning from just before the stored rook file down
      to the corner finds the rook. */
  method QueenSideLetter(right: bool, b: Board, rook: Piece, from: int, corner: Square, fileLetter: string, bare: string)
    returns (toAdd: string)
    requires from < 64
    ensures toAdd == XFENLetter(right, PieceIn(b, rook, corner, from), fileLetter, bare)
  {
    toAdd := "";
    if right {
      toAdd := bare;
      var found := ScanDown(b, rook, from, corner);
      if found {
        toAdd := fileLetter;
      }
    }
  }

  /** The castling part of XFENString, as the library writes it: in Chess960 mode each present
      right adds one letter, in the order K, Q, k, q; in normal mode it is the FEN castling
      field. */
  method XFENCastle(p: Position) returns (c: string)
    ensures c == XFENCastleField(p)
  {
    var cr := p.castleRights;
    var b := p.board;
    var h := cr.hSideRookStartingFile;
    var a := cr.aSideRookStartingFile;
    if cr.nineSixtyMode {
      c := "";
      var toAdd := KingSideLetter(cr.whiteKingSideCastle, b, WhiteRook, SquareOrZero(h, 0) + 1, 7, UpperFile(h), "K");
      c := c + toAdd;
      assert c == XFENWhiteKing(p);
      toAdd := QueenSideLetter(cr.whiteQueenSideCastle, b, WhiteRook, SquareOrZero(a, 0) - 1, 0, UpperFile(a), "Q");
      c := c + toAdd;
      assert c == XFENWhiteKing(p) + XFENWhiteQueen(p);
      toAdd := KingSideLetter(cr.blackKingSideCastle, b, BlackRook, SquareOrZero(h, 7) + 1, 63, LowerFile(h), "k");
      c := c + toAdd;
      assert c == XFENWhiteKing(p) + XFENWhiteQueen(p) + XFENBlackKing(p);
      toAdd := QueenSideLetter(cr.blackQueenSideCastle, b, BlackRook, SquareOrZero(a, 7) - 1, 56, LowerFile(a), "q");
      c := c + toAdd;
    } else {
      c := RightsString(cr);
    }
  }

  /** In Chess960 mode, when no rook stands beyond the stored file of any present right, the
      X-FEN field is the plain FEN field K, Q, k, q of the same rights. */
  lemma {:induction false} XFENBareLetters(p: Position)
    requires p.castleRights.nineSixtyMode
    requires p.castleRights.whiteKingSideCastle ==>
      !PieceIn(p.board, WhiteRook, SquareOrZero(p.castleRights.hSideRookStartingFile, 0) + 1, 7)
    requires p.castleRights.whiteQueenSideCastle ==>
      !PieceIn(p.board, WhiteRook, 0, SquareOrZero(p.castleRights.aSideRookStartingFile, 0) - 1)
    requires p.castleRights.blackKingSideCastle ==>
      !PieceIn(p.board, BlackRook, SquareOrZero(p.castleRights.hSideRookStartingFile, 7) + 1, 63)
    requires p.castleRights.blackQueenSideCastle ==>
      !PieceIn(p.board, BlackRook, 56, SquareOrZero(p.castleRights.aSideRookStartingFile, 7) - 1)
    requires HasAnyRight(p.castleRights)
    ensures XFENCastleField(p) == RightsString(p.castleRights.(nineSixtyMode := false))
  {
    var cr := p.castleRights;
    var n := cr.(nineSixtyMode := false);
    var a, b, c, d := NormalLettersParts(n);
    assert XFENCastleField(p) == a + b + c + d;
  }

  /** In Chess960 mode, when every present right has a known rook file and a rook beyond it,
      the X-FEN field is the Shredder-FEN field. */
  lemma {:induction false} XFENFileLetters(p: Position)
    requires p.castleRights.nineSixtyMode
    requires p.castleRights.whiteKingSideCastle ==>
      PieceIn(p.board, WhiteRook, SquareOrZero(p.castleRights.hSideRookStartingFile, 0) + 1, 7)
    requires p.castleRights.whiteQueenSideCastle ==>
      PieceIn(p.board, WhiteRook, 0, SquareOrZero(p.castleRights.aSideRookStartingFile, 0) - 1)
    requires p.castleRights.blackKingSideCastle ==>
      PieceIn(p.board, BlackRook, SquareOrZero(p.castleRights.hSideRookStartingFile, 7) + 1, 63)
    requires p.castleRights.blackQueenSideCastle ==>
      PieceIn(p.board, BlackRook, 56, SquareOrZero(p.castleRights.aSideRookStartingFile, 7) - 1)
    ensures HasAnyRight(p.castleRights) ==> XFENCastleField(p) == RightsLetters(p.castleRights)
  {
  }

  /** Whether a pawn of the side to move stands on file f (if it is a file) of the given rank. */
  predicate PawnOfTurnAt(p: Position, f: int, rank: Rank) {
    0 <= f < 8 && p.board[NewSquare(f, rank)].Type() == Pawn && p.board[NewSquare(f, rank)].Color() == p.turn
  }

  /** Whether a pawn of the side to move stands next to the en-passant file on the rank from
      which it could capture (rank 5 for White, rank 4 for Black). */
  predicate CapturerBeside(p: Position)
    requires p.enPassantSquare.Some?
  {
    var rank := if p.turn == White then 4 else 3;
    var file := FileOf(p.enPassantSquare.value);
    PawnOfTurnAt(p, file - 1, rank) || PawnOfTurnAt(p, file + 1, rank)
  }

  /** The X-FEN en-passant field: the square only when a pawn could actually take there. */
  function XFENEnPassantField(p: Position): string {
    if p.enPassantSquare.Some? && CapturerBeside(p) then SquareName(p.enPassantSquare.value) else "-"
  }

  /** The en-passant part of XFENString: the two neighbouring files are tried in turn, and the
      square is printed at the first pawn of the side to move found there. */
  method XFENEnPassant(p: Position) returns (sq: string)
    ensures sq == XFENEnPassantField(p)
  {
    sq := "-";
    if p.enPassantSquare.Some? {
      var rank: Rank := if p.turn == White then 4 else 3;
      var file: int := FileOf(p.enPassantSquare.value);
      var potentialPawnFiles := [file - 1, file + 1];
      var i := 0;
      while i < |potentialPawnFiles|
        invariant 0 <= i <= 2
        invariant sq == "-"
        invariant forall j :: 0 <= j < i ==> !PawnOfTurnAt(p, potentialPawnFiles[j], rank)
      {
        var f := potentialPawnFiles[i];
        i := i + 1;
        if f < 0 || f > 7 {
          continue;
        }
        var potentialPawn := p.board[NewSquare(f, rank)];
        if potentialPawn == NoPiece {
          continue;
        }
        if potentialPawn.Type() != Pawn {
          continue;
        }
        if potentialPawn.Color() == p.turn {
          assert PawnOfTurnAt(p, f, rank) && (f == file - 1 || f == file + 1);
          sq := SquareName(p.enPassantSquare.value);
          break;
        }
      }
      if sq == "-" {
        assert !PawnOfTurnAt(p, potentialPawnFiles[0], rank) && !PawnOfTurnAt(p, potentialPawnFiles[1], rank);
      }
    }
  }

  /** The X-FEN en-passant field is either the ordinary one or "-": it only ever hides the
      square, and it shows it exactly when a capturing pawn is in place. */
  lemma {:induction false} XFENEnPassantHidesOnly(p: Position)
    ensures XFENEnPassantField(p) == EnPassantField(p.enPassantSquare) || XFENEnPassantField(p) == "-"
    ensures XFENEnPassantField(p) != "-" <==> p.enPassantSquare.Some? && CapturerBeside(p)
  {
    if p.enPassantSquare.Some? {
      assert SquareName(p.enPassantSquare.value) != "-";
      assert EnPassantField(p.enPassantSquare) == SquareName(p.enPassantSquare.value);
    }
  }

  /** XFENString: the six fields with the X-FEN castling and en-passant fields. The castling
      field is written as the loop leaves it, so a Chess960 position without rights gets an
      empty field; XFENCastleText is the corrected field that writes "-" instead. */
  method XFENString(p: Position, e: Engine) returns (s: string)
    ensures s == Join(Fields(p, e, XFENCastleField(p), XFENEnPassantField(p)), ' ')
  {
    var c := XFENCastle(p);
    var sq := XFENEnPassant(p);
    s := Join([e.boardString(p.board), p.turn.Name(), c, sq, IntToString(p.halfMoveClock), IntToString(p.moveCount)], ' ');
  }

  /** In normal mode, with no en-passant square or a capturing pawn beside it, the X-FEN text
      and the FEN text are the same. */
  lemma {:induction false} XFENAgreesWithFEN(p: Position, e: Engine)
    requires !p.castleRights.nineSixtyMode
    requires p.enPassantSquare.Some? ==> CapturerBeside(p)
    ensures Join(Fields(p, e, XFENCastleField(p), XFENEnPassantField(p)), ' ') == PositionString(p, e)
  {
    NormalRightsOrder(p.castleRights);
  }
}
