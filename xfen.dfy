/** Reading X-FEN text back with decodeFEN in Chess960 mode. A Chess960 position without
    castling rights gets an empty castling field from the letter-by-letter X-FEN writer, which
    the decoder refuses as too short; written as "-", the same position reads back. */
module XFen {
  import opened Wrappers
  import opened Chess
  import opened Castling
  import opened Text
  import opened FenBoards
  import opened FenCastle
  import opened Positions
  import opened Fen

  /** A Chess960 position without rights gets an empty X-FEN castling field. */
  lemma XFENFieldEmptyWithoutRights(p: Position)
    requires p.castleRights.nineSixtyMode && !HasAnyRight(p.castleRights)
    ensures XFENCastleField(p) == ""
    ensures XFENCastleText(p) == "-"
  {
  }

  /** The board and the turn of an X-FEN text decode, so the castling field is read next. */
  predicate XFENReadable(p: Position, e: Engine) {
    && FenBoardSpec(e.boardString(p.board)) == Ok(p.board)
    && ' ' !in e.boardString(p.board)
    && p.turn != NoColor
  }

  /** The X-FEN text of a Chess960 position, with the castling field as given. */
  function XFENText(p: Position, e: Engine, castle: string): (s: string)
    requires XFENReadable(p, e) && ' ' !in castle
    ensures Split(TrimSpace(s), ' ') == Fields(p, e, castle, XFENEnPassantField(p))
  {
    var s := Join(Fields(p, e, castle, XFENEnPassantField(p)), ' ');
    FieldsTrimmed(p, e, castle, XFENEnPassantField(p));
    assert ' ' !in XFENEnPassantField(p);
    FieldsSplit(p, e, castle, XFENEnPassantField(p));
    s
  }

  /** As Positions.XFENString writes it, the text of a Chess960 position without
      rights has an empty castling field, which decodeFEN rejects as a castling field of the
      wrong length, whatever the rest of the position. */
  lemma {:induction false} XFENWithoutRightsRejected(p: Position, e: Engine)
    requires XFENReadable(p, e)
    requires p.castleRights.nineSixtyMode && !HasAnyRight(p.castleRights)
    ensures DecodeFEN(XFENText(p, e, XFENCastleField(p)), true, e) == Err(BadCastleLength)
  {
    XFENFieldEmptyWithoutRights(p);
    var parts := Fields(p, e, "", XFENEnPassantField(p));
    DecodeFENAfterBoard(XFENText(p, e, ""), true, e, parts, p.board);
    assert TurnFromName(parts[1]) == Some(p.turn) by {
      TurnNameRoundTrip(p.turn);
    }
    assert FormCastleRightsSpec(parts[2], true, p.board) == Err(BadCastleLength);
    assert DecodeAfterBoard(parts, true, e, p.board) == Err(BadCastleLength);
  }

  /** With "-" for the empty field, the X-FEN text of a Chess960 position without rights
      decodes back to the position, with no rights and no stored rook files; a plausible
      en-passant square is kept when a pawn could take there. */
  lemma {:induction false} XFENWithoutRightsRoundTrip(p: Position, e: Engine)
    requires XFENReadable(p, e)
    requires p.castleRights.nineSixtyMode && !HasAnyRight(p.castleRights)
    requires p.enPassantSquare.Some? ==> CapturerBeside(p) && EnPassantPlausible(p.enPassantSquare.value, p.board, p.turn)
    requires p.halfMoveClock >= 0 && p.moveCount >= 1
    requires !p.inCheck && !e.isInCheck(p.board, p.turn.Other())
    ensures DecodeFEN(XFENText(p, e, XFENCastleText(p)), true, e) == Ok(p.(castleRights := NoRights(true)))
  {
    XFENFieldEmptyWithoutRights(p);
    var parts := Fields(p, e, "-", XFENEnPassantField(p));
    DecodeFENAfterBoard(XFENText(p, e, "-"), true, e, parts, p.board);
    NoRightsFieldsDecode(parts, e, p);
  }

  /** The six X-FEN fields of a Chess960 position without rights, with "-" for the castling
      field, decode back to the position with no rights. */
  lemma NoRightsFieldsDecode(parts: seq<string>, e: Engine, p: Position)
    requires p.turn != NoColor && KingsPresent(p.board)
    requires p.castleRights.nineSixtyMode && !HasAnyRight(p.castleRights)
    requires p.enPassantSquare.Some? ==> CapturerBeside(p) && EnPassantPlausible(p.enPassantSquare.value, p.board, p.turn)
    requires p.halfMoveClock >= 0 && p.moveCount >= 1
    requires !p.inCheck && !e.isInCheck(p.board, p.turn.Other())
    requires parts == Fields(p, e, "-", XFENEnPassantField(p))
    ensures DecodeAfterBoard(parts, true, e, p.board) == Ok(p.(castleRights := NoRights(true)))
  {
    var q := p.(castleRights := NoRights(true));
    assert XFENEnPassantField(p) == EnPassantField(p.enPassantSquare) by {
      XFENEnPassantHidesOnly(p);
    }
    assert DecodeClocks(parts, e, q.board, q.turn, q.castleRights) == Ok(q) by {
      EnPassantRoundTrip(q.enPassantSquare, q.board, q.turn);
      AtoiIntToString(q.halfMoveClock);
      AtoiIntToString(q.moveCount);
      DecodeClocksAccepts(parts, e, q);
    }
    assert TurnFromName(parts[1]) == Some(p.turn) by {
      TurnNameRoundTrip(p.turn);
    }
    assert FormCastleRightsSpec(parts[2], true, p.board) == Ok(NoRights(true));
  }

}
