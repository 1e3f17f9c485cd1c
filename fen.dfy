/** decodeFEN and formEnPassant of fen.go: the six space-separated fields of a FEN record are
    decoded one after another, each with its own error, and the result is rejected when the
    side that has just moved could have its king captured. */
module Fen {
  import opened Wrappers
  import opened Chess
  import opened Castling
  import opened Text
  import opened FenBoards
  import opened FenCastle
  import opened Positions

  /** fenTurnMap: "w" is White, "b" is Black, nothing else names a turn. */
  function TurnFromName(s: string): (r: Option<Color>)
    ensures r.Some? <==> s == "w" || s == "b"
    ensures r.Some? ==> r.value != NoColor && r.value.Name() == s
  {
    if s == "w" then Some(White) else if s == "b" then Some(Black) else None
  }

  /** Reading a turn's own name gives the turn back. */
  lemma TurnNameRoundTrip(c: Color)
    requires c != NoColor
    ensures TurnFromName(c.Name()) == Some(c)
  {
  }

  /** strToSquareMap[s]: the square named s, or the zero value A1 for a name the table lacks. */
  function SquareLookup(s: string): (sq: Square)
    ensures ParseSquare(s).Some? ==> sq == ParseSquare(s).value
    ensures ParseSquare(s).None? ==> sq == 0
  {
    match ParseSquare(s)
    case Some(q) => q
    case None => 0
  }

  /** An en-passant square that a double push of the side not to move could have left: on the
      third rank with Black to move and a White pawn just in front of it, or on the sixth rank
      with White to move and a Black pawn just below it. */
  predicate EnPassantPlausible(sq: Square, b: Board, turn: Color) {
    || (RankOf(sq) == 2 && turn == Black && b[NewSquare(FileOf(sq), 3)] == WhitePawn)
    || (RankOf(sq) == 5 && turn == White && b[NewSquare(FileOf(sq), 4)] == BlackPawn)
  }

  /** formEnPassant: "-" is no square; any other text must name a square of the third or sixth
      rank, agree with the side to move and have the pawn that made the double push. The source's
      comparison with NoSquare never holds, since the table lookup yields A1 for unknown names;
      A1 is then rejected by the rank test. */
  function FormEnPassant(s: string, b: Board, turn: Color): (r: Result<Option<Square>, FenError>)
    ensures r.Ok? && r.value.Some? ==> EnPassantPlausible(r.value.value, b, turn)
    ensures r.Ok? && r.value.None? ==> s == "-"
  {
    if s == "-" then Ok(None)
    else
      var sq := SquareLookup(s);
      if !(RankOf(sq) == 2 || RankOf(sq) == 5) then Err(BadEnPassantSquare)
      else if (RankOf(sq) == 2 && turn != Black) || (RankOf(sq) == 5 && turn != White) then Err(EnPassantWrongTurn)
      else if (RankOf(sq) == 2 && b[NewSquare(FileOf(sq), 3)] != WhitePawn) ||
              (RankOf(sq) == 5 && b[NewSquare(FileOf(sq), 4)] != BlackPawn) then Err(EnPassantNoPawn)
      else Ok(Some(sq))
  }

  /** The en-passant field is accepted exactly when it is "-" or names a plausible square, and
      an accepted square is the one named; text that names no third- or sixth-rank square is a
      malformed square, not a wrong turn or a missing pawn. */
  lemma {:induction false} FormEnPassantAccepts(s: string, b: Board, turn: Color, sq: Square)
    ensures FormEnPassant(s, b, turn) == Ok(None) <==> s == "-"
    ensures FormEnPassant(s, b, turn) == Ok(Some(sq)) <==> s == SquareName(sq) && EnPassantPlausible(sq, b, turn)
    ensures FormEnPassant(s, b, turn) == Err(BadEnPassantSquare) <==>
      s != "-" && (ParseSquare(s).None? || !(RankOf(ParseSquare(s).value) == 2 || RankOf(ParseSquare(s).value) == 5))
  {
    ParseSquareName(sq);
    if ParseSquare(s).Some? {
      ParseSquareInverse(s);
    }
  }

  /** The printed en-passant field reads back as the square it came from, whenever that square
      is plausible for the board and the side to move. */
  lemma {:induction false} EnPassantRoundTrip(ep: Option<Square>, b: Board, turn: Color)
    requires ep.Some? ==> EnPassantPlausible(ep.value, b, turn)
    ensures FormEnPassant(EnPassantField(ep), b, turn) == Ok(ep)
  {
    if ep.Some? {
      FormEnPassantAccepts(EnPassantField(ep), b, turn, ep.value);
    }
  }

  /** decodeFEN: trim, split on spaces into exactly six fields, then decode the board, the turn,
      the castling rights, the en-passant square and the two clocks in that order, the first
      failure giving the error. The decoded position is not in check; it is refused when the
      king of the side that has just moved is attacked. */
  function DecodeFEN(fen: string, isNineSixty: bool, e: Engine): (r: Result<Position, FenError>)
    ensures |Split(TrimSpace(fen), ' ')| != 6 ==> r == Err(WrongFieldCount)
    ensures r.Ok? ==> var parts := Split(TrimSpace(fen), ' ');
      && |parts| == 6
      && FenBoardSpec(parts[0]) == Ok(r.value.board)
      && TurnFromName(parts[1]) == Some(r.value.turn)
      && KingsPresent(r.value.board)
      && FormCastleRightsSpec(parts[2], isNineSixty, r.value.board) == Ok(r.value.castleRights)
      && FormEnPassant(parts[3], r.value.board, r.value.turn) == Ok(r.value.enPassantSquare)
      && Atoi(parts[4]) == Some(r.value.halfMoveClock) && r.value.halfMoveClock >= 0
      && Atoi(parts[5]) == Some(r.value.moveCount) && r.value.moveCount >= 1
      && !r.value.inCheck
      && !e.isInCheck(r.value.board, r.value.turn.Other())
  {
    var parts := Split(TrimSpace(fen), ' ');
    if |parts| != 6 then Err(WrongFieldCount)
    else
      match FenBoardSpec(parts[0])
      case Err(err) => Err(err)
      case Ok(b) =>
        FenBoardHasKings(parts[0]);
        DecodeAfterBoard(parts, isNineSixty, e, b)
  }

  /** The fields after the board, decoded against it. */
  function DecodeAfterBoard(parts: seq<string>, isNineSixty: bool, e: Engine, b: Board): (r: Result<Position, FenError>)
    requires |parts| == 6 && KingsPresent(b)
    ensures r.Ok? ==>
      && r.value.board == b
      && TurnFromName(parts[1]) == Some(r.value.turn)
      && FormCastleRightsSpec(parts[2], isNineSixty, b) == Ok(r.value.castleRights)
      && FormEnPassant(parts[3], b, r.value.turn) == Ok(r.value.enPassantSquare)
      && Atoi(parts[4]) == Some(r.value.halfMoveClock) && r.value.halfMoveClock >= 0
      && Atoi(parts[5]) == Some(r.value.moveCount) && r.value.moveCount >= 1
      && !r.value.inCheck
      && !e.isInCheck(b, r.value.turn.Other())
  {
    match TurnFromName(parts[1])
    case None => Err(BadTurn)
    case Some(turn) =>
      match FormCastleRightsSpec(parts[2], isNineSixty, b)
      case Err(err) => Err(err)
      case Ok(rights) => DecodeClocks(parts, e, b, turn, rights)
  }

  /** The en-passant field, the two clocks and the capturable-king test. */
  function DecodeClocks(parts: seq<string>, e: Engine, b: Board, turn: Color, rights: CastleRights): (r: Result<Position, FenError>)
    requires |parts| == 6
    ensures r.Ok? ==>
      && r.value.board == b && r.value.turn == turn && r.value.castleRights == rights
      && FormEnPassant(parts[3], b, turn) == Ok(r.value.enPassantSquare)
      && Atoi(parts[4]) == Some(r.value.halfMoveClock) && r.value.halfMoveClock >= 0
      && Atoi(parts[5]) == Some(r.value.moveCount) && r.value.moveCount >= 1
      && !r.value.inCheck
      && !e.isInCheck(b, turn.Other())
  {
    match FormEnPassant(parts[3], b, turn)
    case Err(err) => Err(err)
    case Ok(ep) =>
      var half := Atoi(parts[4]);
      if half.None? || half.value < 0 then Err(BadHalfMoveClock)
      else
        var moves := Atoi(parts[5]);
        if moves.None? || moves.value < 1 then Err(BadMoveCount)
        else if e.isInCheck(b, turn.Other()) then Err(KingCapturable)
        else Ok(Position(b, turn, rights, ep, half.value, moves.value, false))
  }

  /** The last stage accepts the fields that read back as a position's own. */
  lemma DecodeClocksAccepts(parts: seq<string>, e: Engine, p: Position)
    requires |parts| == 6
    requires FormEnPassant(parts[3], p.board, p.turn) == Ok(p.enPassantSquare)
    requires Atoi(parts[4]) == Some(p.halfMoveClock) && p.halfMoveClock >= 0
    requires Atoi(parts[5]) == Some(p.moveCount) && p.moveCount >= 1
    requires !p.inCheck && !e.isInCheck(p.board, p.turn.Other())
    ensures DecodeClocks(parts, e, p.board, p.turn, p.castleRights) == Ok(p)
  {
  }

  /** Everything a decoded position is known to satisfy: both kings on the board, no pawn on a
      back rank, castling rights backed by the pieces they need in the chosen mode, an
      en-passant square a double push could have left, and clocks read from their fields. */
  lemma {:induction false} DecodeFENSound(fen: string, isNineSixty: bool, e: Engine, f: File)
    requires DecodeFEN(fen, isNineSixty, e).Ok?
    ensures var p := DecodeFEN(fen, isNineSixty, e).value;
      var parts := Split(TrimSpace(fen), ' ');
      && |parts| == 6
      && FenBoardSpec(parts[0]) == Ok(p.board)
      && p.turn.Name() == parts[1]
      && KingSquare(p.board, White).Some? && KingSquare(p.board, Black).Some?
      && p.board[NewSquare(f, 0)].Type() != Pawn && p.board[NewSquare(f, 7)].Type() != Pawn
      && p.castleRights.nineSixtyMode == isNineSixty
      && (!isNineSixty ==> NormalBacked(p.castleRights, p.board))
      && (isNineSixty ==>
            Sound960(p.castleRights, p.board, KingSquare(p.board, White).value, KingSquare(p.board, Black).value))
      && (p.enPassantSquare.Some? ==> EnPassantPlausible(p.enPassantSquare.value, p.board, p.turn))
      && Atoi(parts[4]) == Some(p.halfMoveClock) && Atoi(parts[5]) == Some(p.moveCount)
  {
    var parts := Split(TrimSpace(fen), ' ');
    var b := FenBoardSpec(parts[0]).value;
    FenBoardHasKings(parts[0]);
    FenBoardNoBackRankPawns(parts[0], f);
    if isNineSixty {
      NineSixtyRightsSound(parts[2], b);
    } else {
      NormalRightsDecode(parts[2], b);
    }
  }

  /** A position whose printed form decodes back to itself: a board text that decodes to the
      board, a side to move, normal castling rights backed by king and rook on their home
      squares, a plausible en-passant square, clocks in range, no pending check flag and no
      capturable king. */
  predicate NormalRecordable(p: Position, e: Engine) {
    && FenBoardSpec(e.boardString(p.board)) == Ok(p.board)
    && p.turn != NoColor
    && !p.castleRights.nineSixtyMode
    && p.castleRights.aSideRookStartingFile.None? && p.castleRights.hSideRookStartingFile.None?
    && NormalBacked(p.castleRights, p.board)
    && (p.enPassantSquare.Some? ==> EnPassantPlausible(p.enPassantSquare.value, p.board, p.turn))
    && p.halfMoveClock >= 0 && p.moveCount >= 1
    && !p.inCheck
    && !e.isInCheck(p.board, p.turn.Other())
  }

  /** A printed position has no white space at either end, whatever its castling and
      en-passant fields, so trimming leaves it alone. */
  lemma {:induction false} FieldsTrimmed(p: Position, e: Engine, castle: string, ep: string)
    requires FenBoardSpec(e.boardString(p.board)).Ok?
    ensures TrimSpace(Join(Fields(p, e, castle, ep), ' ')) == Join(Fields(p, e, castle, ep), ' ')
  {
    var bs := e.boardString(p.board);
    var f := Fields(p, e, castle, ep);
    var s := Join(f, ' ');
    assert 'K' in bs by {
      assert Count(bs, 'K') == 1;
    }
    FenBoardChars(bs, bs[0]);
    BoardCharNotSpace(bs[0]);
    var n := IntToString(p.moveCount);
    assert n == f[5];
    assert IsDigit(n[|n| - 1]);
    BoardCharNotSpace(n[|n| - 1]);
    JoinEnds(f, ' ');
    assert s[0] == bs[0] && s[|s| - 1] == n[|n| - 1];
    TrimSpaceOfTrimmed(s);
  }


  /** Printing a position and decoding the text in normal mode gives the same position back. */
  lemma {:induction false} FENRoundTrip(p: Position, e: Engine)
    requires NormalRecordable(p, e)
    requires ' ' !in e.boardString(p.board)
    ensures DecodeFEN(PositionString(p, e), false, e) == Ok(p)
  {
    var s := PositionString(p, e);
    var parts := Split(TrimSpace(s), ' ');
    assert parts == Fields(p, e, RightsString(p.castleRights), EnPassantField(p.enPassantSquare)) by {
      FieldsTrimmed(p, e, RightsString(p.castleRights), EnPassantField(p.enPassantSquare));
      PositionStringFields(p, e);
    }
    FenBoardHasKings(parts[0]);
    FieldsDecode(parts, e, p);
  }

  /** Once the text splits into six fields and the board field decodes, decodeFEN's outcome is
      that of the fields after the board. */
  lemma DecodeFENAfterBoard(fen: string, isNineSixty: bool, e: Engine, parts: seq<string>, b: Board)
    requires parts == Split(TrimSpace(fen), ' ') && |parts| == 6
    requires FenBoardSpec(parts[0]) == Ok(b)
    ensures KingsPresent(b)
    ensures DecodeFEN(fen, isNineSixty, e) == DecodeAfterBoard(parts, isNineSixty, e, b)
  {
    FenBoardHasKings(parts[0]);
  }

  /** The six printed fields of a normally recordable position decode back to it. */
  lemma FieldsDecode(parts: seq<string>, e: Engine, p: Position)
    requires NormalRecordable(p, e) && KingsPresent(p.board)
    requires parts == Fields(p, e, RightsString(p.castleRights), EnPassantField(p.enPassantSquare))
    ensures DecodeAfterBoard(parts, false, e, p.board) == Ok(p)
  {
    assert DecodeClocks(parts, e, p.board, p.turn, p.castleRights) == Ok(p) by {
      EnPassantRoundTrip(p.enPassantSquare, p.board, p.turn);
      AtoiIntToString(p.halfMoveClock);
      AtoiIntToString(p.moveCount);
      DecodeClocksAccepts(parts, e, p);
    }
    assert TurnFromName(parts[1]) == Some(p.turn) by {
      TurnNameRoundTrip(p.turn);
    }
    assert FormCastleRightsSpec(parts[2], false, p.board) == Ok(p.castleRights) by {
      NormalRightsRoundTrip(p.castleRights, p.board);
    }
  }
}
