/** The 103-byte binary form of a position (MarshalBinary / UnmarshalBinary in position.go):
    the board's 96 bytes, the half-move clock as one byte, the move count as two big-endian
    bytes, the en-passant square as a signed byte (NoSquare is -1, written 255), the h-side and
    a-side rook files (255 when unknown) and a flag byte. */
module PositionBinary {
  import opened Wrappers
  import opened Chess
  import opened Castling
  import opened Positions

  const BoardSize: nat := 96
  const EncodedSize: nat := 103

  /** The flag bits, lowest first. */
  const BitsCastleWhiteKing: bv8 := 1
  const BitsCastleWhiteQueen: bv8 := 2
  const BitsCastleBlackKing: bv8 := 4
  const BitsCastleBlackQueen: bv8 := 8
  const BitsTurn: bv8 := 16
  const BitsHasEnPassant: bv8 := 32
  const BitsIsNineSixty: bv8 := 64

  /** The byte written for an unknown rook file. */
  const NoFile: byte := 255

  datatype BinaryError = WrongLength | BadBoard | BadRookFile | BadEnPassant

  /** The board codec behaves: 96 bytes that decode back to the board. */
  predicate BoardCodecSound(e: Engine, b: Board) {
    |e.boardBytes(b)| == BoardSize && e.boardFromBytes(e.boardBytes(b)) == Some(b)
  }

  /** The flag byte of a position. */
  function FlagByte(p: Position): (b: bv8)
    ensures b & BitsCastleWhiteKing != 0 <==> p.castleRights.whiteKingSideCastle
    ensures b & BitsCastleWhiteQueen != 0 <==> p.castleRights.whiteQueenSideCastle
    ensures b & BitsCastleBlackKing != 0 <==> p.castleRights.blackKingSideCastle
    ensures b & BitsCastleBlackQueen != 0 <==> p.castleRights.blackQueenSideCastle
    ensures b & BitsTurn != 0 <==> p.turn == Black
    ensures b & BitsHasEnPassant != 0 <==> p.enPassantSquare.Some?
    ensures b & BitsIsNineSixty != 0 <==> p.castleRights.nineSixtyMode
    ensures b < 128
  {
    (if p.castleRights.whiteKingSideCastle then BitsCastleWhiteKing else 0) |
    (if p.castleRights.whiteQueenSideCastle then BitsCastleWhiteQueen else 0) |
    (if p.castleRights.blackKingSideCastle then BitsCastleBlackKing else 0) |
    (if p.castleRights.blackQueenSideCastle then BitsCastleBlackQueen else 0) |
    (if p.turn == Black then BitsTurn else 0) |
    (if p.enPassantSquare.Some? then BitsHasEnPassant else 0) |
    (if p.castleRights.nineSixtyMode then BitsIsNineSixty else 0)
  }

  /** A rook file as written: its index, or 255 when unknown. */
  function RookFileByte(f: Option<File>): (b: byte)
    ensures b == NoFile <==> f.None?
  {
    if f.Some? then f.value else NoFile
  }

  /** The en-passant square as the signed byte written: the square, or 255 for NoSquare. */
  function EnPassantByte(sq: Option<Square>): (b: byte)
    ensures b == 255 <==> sq.None?
  {
    if sq.Some? then sq.value else 255
  }

  /** The bytes MarshalBinary produces: the board bytes followed by seven bytes, the clocks
      truncated to an unsigned byte and an unsigned 16-bit number. */
  function EncodeBinary(p: Position, e: Engine): (data: seq<byte>)
    ensures |data| == |e.boardBytes(p.board)| + 7
  {
    var moveCount := p.moveCount % 65536;
    e.boardBytes(p.board) +
    [p.halfMoveClock % 256, moveCount / 256, moveCount % 256,
     EnPassantByte(p.enPassantSquare),
     RookFileByte(p.castleRights.hSideRookStartingFile),
     RookFileByte(p.castleRights.aSideRookStartingFile),
     FlagByte(p) as int]
  }

  /** MarshalBinary: the board bytes, then each field written to the buffer in turn; the flag
      byte is built up one bit at a time. */
  method MarshalBinary(p: Position, e: Engine) returns (data: seq<byte>)
    ensures data == EncodeBinary(p, e)
  {
    data := e.boardBytes(p.board);
    data := data + [p.halfMoveClock % 256];
    var moveCount := p.moveCount % 65536;
    data := data + [moveCount / 256, moveCount % 256];
    data := data + [EnPassantByte(p.enPassantSquare)];
    var hsideFile: byte := if p.castleRights.hSideRookStartingFile.None? then 255 else p.castleRights.hSideRookStartingFile.value;
    data := data + [hsideFile];
    var asideFile: byte := if p.castleRights.aSideRookStartingFile.None? then 255 else p.castleRights.aSideRookStartingFile.value;
    data := data + [asideFile];
    var b := FlagBits(p);
    data := data + [b as int];
  }

  /** The flag byte of MarshalBinary, one bit set after another. */
  method FlagBits(p: Position) returns (b: bv8)
    ensures b == FlagByte(p)
  {
    var cr := p.castleRights;
    b := 0;
    if CanCastle(cr, White, KingSide) {
      b := b | BitsCastleWhiteKing;
    }
    ghost var b1 := b;
    assert b1 == (if cr.whiteKingSideCastle then BitsCastleWhiteKing else 0);
    if CanCastle(cr, White, QueenSide) {
      b := b | BitsCastleWhiteQueen;
    }
    assert b == b1 | (if cr.whiteQueenSideCastle then BitsCastleWhiteQueen else 0);
    ghost var b2 := b;
    if CanCastle(cr, Black, KingSide) {
      b := b | BitsCastleBlackKing;
    }
    assert b == b2 | (if cr.blackKingSideCastle then BitsCastleBlackKing else 0);
    ghost var b3 := b;
    if CanCastle(cr, Black, QueenSide) {
      b := b | BitsCastleBlackQueen;
    }
    assert b == b3 | (if cr.blackQueenSideCastle then BitsCastleBlackQueen else 0);
    ghost var b4 := b;
    if p.turn == Black {
      b := b | BitsTurn;
    }
    assert b == b4 | (if p.turn == Black then BitsTurn else 0);
    ghost var b5 := b;
    if p.enPassantSquare.Some? {
      b := b | BitsHasEnPassant;
    }
    assert b == b5 | (if p.enPassantSquare.Some? then BitsHasEnPassant else 0);
    ghost var b6 := b;
    if cr.nineSixtyMode {
      b := b | BitsIsNineSixty;
    }
    assert b == b6 | (if cr.nineSixtyMode then BitsIsNineSixty else 0);
  }

  /** A rook file byte read back: 255 is unknown, 0..7 a file, anything else is rejected. */
  function DecodeRookFile(b: byte): (r: Result<Option<File>, BinaryError>)
    ensures r.Ok? <==> b == NoFile || b < 8
  {
    if b == NoFile then Ok(None)
    else if b < 8 then Ok(Some(b))
    else Err(BadRookFile)
  }

  /** The en-passant square read back: absent unless the has-en-passant bit is set; 255 is
      NoSquare; 0..63 a square; anything else is rejected. */
  function DecodeEnPassant(b: byte, flags: bv8): (r: Result<Option<Square>, BinaryError>)
    ensures flags & BitsHasEnPassant == 0 ==> r == Ok(None)
  {
    if flags & BitsHasEnPassant == 0 then Ok(None)
    else if b == 255 then Ok(None)
    else if b < 64 then Ok(Some(b))
    else Err(BadEnPassant)
  }

  /** UnmarshalBinary's reading of the bytes: a position, or the reason they are not one. */
  function DecodeBinary(data: seq<byte>, e: Engine): (r: Result<Position, BinaryError>)
    ensures |data| != EncodedSize ==> r == Err(WrongLength)
    ensures r.Ok? ==> 0 <= r.value.halfMoveClock < 256 && 0 <= r.value.moveCount < 65536
    ensures r.Ok? ==> r.value.turn != NoColor
    ensures r.Ok? ==> r.value.inCheck == e.isInCheck(r.value.board, r.value.turn)
  {
    if |data| != EncodedSize then Err(WrongLength)
    else
      var board :- (match e.boardFromBytes(data[..BoardSize])
                    case Some(b) => Ok(b)
                    case None => Err(BadBoard));
      var flags := data[102] as bv8;
      var hside :- DecodeRookFile(data[100]);
      var aside :- DecodeRookFile(data[101]);
      var ep :- DecodeEnPassant(data[99], flags);
      var turn := if flags & BitsTurn != 0 then Black else White;
      var cr := CastleRights(
        flags & BitsIsNineSixty != 0, aside, hside,
        flags & BitsCastleWhiteKing != 0, flags & BitsCastleWhiteQueen != 0,
        flags & BitsCastleBlackKing != 0, flags & BitsCastleBlackQueen != 0);
      Ok(Position(board, turn, cr, ep, data[96], (data[97] as int) * 256 + data[98], e.isInCheck(board, turn)))
  }

  /** What survives the round trip: the clocks truncated to 8 and 16 bits, a missing side to
      move read as White, and the check flag recomputed. */
  function Normalized(p: Position, e: Engine): Position {
    var turn := if p.turn == Black then Black else White;
    p.(turn := turn, halfMoveClock := p.halfMoveClock % 256, moveCount := p.moveCount % 65536,
       inCheck := e.isInCheck(p.board, turn))
  }

  /** Reading back what MarshalBinary wrote restores the board, the side to move, all four
      rights, the mode, both rook files and the en-passant square, with the clocks modulo 256
      and 65536. */
  lemma {:induction false} BinaryRoundTrip(p: Position, e: Engine)
    requires BoardCodecSound(e, p.board)
    ensures DecodeBinary(EncodeBinary(p, e), e) == Ok(Normalized(p, e))
  {
    var data := EncodeBinary(p, e);
    var flags := FlagByte(p);
    var cr := p.castleRights;
    assert |data| == EncodedSize;
    assert e.boardFromBytes(data[..BoardSize]) == Some(p.board) by {
      assert data[..BoardSize] == e.boardBytes(p.board);
    }
    assert data[102] as bv8 == flags by {
      assert data[102] == flags as int;
    }
    assert (data[97] as int) * 256 + data[98] == p.moveCount % 65536;
    assert data[96] == p.halfMoveClock % 256;
    assert DecodeRookFile(data[100]) == Ok(cr.hSideRookStartingFile);
    assert DecodeRookFile(data[101]) == Ok(cr.aSideRookStartingFile);
    assert DecodeEnPassant(data[99], flags) == Ok(p.enPassantSquare);
    DecodeFields(data, e, p.board, flags, Normalized(p, e));
  }

  /** Decoding in terms of the decoded parts: the bytes decode to position q once the board,
      the rook files, the en-passant square, the clocks and the flags each read back as q's. */
  lemma {:induction false} DecodeFields(data: seq<byte>, e: Engine, board: Board, flags: bv8, q: Position)
    requires |data| == EncodedSize
    requires e.boardFromBytes(data[..BoardSize]) == Some(board) && q.board == board
    requires data[102] as bv8 == flags
    requires DecodeRookFile(data[100]) == Ok(q.castleRights.hSideRookStartingFile)
    requires DecodeRookFile(data[101]) == Ok(q.castleRights.aSideRookStartingFile)
    requires DecodeEnPassant(data[99], flags) == Ok(q.enPassantSquare)
    requires q.halfMoveClock == data[96] && q.moveCount == (data[97] as int) * 256 + data[98]
    requires q.turn == (if flags & BitsTurn != 0 then Black else White)
    requires q.castleRights.nineSixtyMode == (flags & BitsIsNineSixty != 0)
    requires q.castleRights.whiteKingSideCastle == (flags & BitsCastleWhiteKing != 0)
    requires q.castleRights.whiteQueenSideCastle == (flags & BitsCastleWhiteQueen != 0)
    requires q.castleRights.blackKingSideCastle == (flags & BitsCastleBlackKing != 0)
    requires q.castleRights.blackQueenSideCastle == (flags & BitsCastleBlackQueen != 0)
    requires q.inCheck == e.isInCheck(board, q.turn)
    ensures DecodeBinary(data, e) == Ok(q)
  {
  }

  /** Re-encoding after a round trip changes nothing: a marshalled position is a fixed point. */
  lemma {:induction false} BinaryEncodingStable(p: Position, e: Engine)
    requires BoardCodecSound(e, p.board)
    ensures EncodeBinary(Normalized(p, e), e) == EncodeBinary(p, e)
  {
    var q := Normalized(p, e);
    assert FlagByte(q) == FlagByte(p);
    assert q.board == p.board;
    assert q.halfMoveClock % 256 == p.halfMoveClock % 256;
    assert q.moveCount % 65536 == p.moveCount % 65536;
  }
}
