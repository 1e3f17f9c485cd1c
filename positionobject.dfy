/** The parts of position.go that change a Position in place: the write-once cache of legal
    moves behind Position.ValidMoves and UnmarshalBinary, which fills the receiver's fields
    from 103 bytes. The object's fields are those of the Position value; Value reads them
    back as one. */
module PositionObjects {
  import opened Wrappers
  import opened Chess
  import opened Castling
  import opened Positions
  import opened PositionBinary

  class PositionObject {
    var board: Board
    var turn: Color
    var castleRights: CastleRights
    var enPassantSquare: Option<Square>
    var halfMoveClock: int
    var moveCount: int
    var inCheck: bool
    /** The validMoves field: None until ValidMoves first runs (Go's nil slice). */
    var validMoves: Option<seq<Move>>

    /** The position the fields hold. */
    function Value(): (p: Position)
      reads this
      ensures p.board == board && p.turn == turn && p.castleRights == castleRights
      ensures p.enPassantSquare == enPassantSquare && p.inCheck == inCheck
      ensures p.halfMoveClock == halfMoveClock && p.moveCount == moveCount
    {
      Position(board, turn, castleRights, enPassantSquare, halfMoveClock, moveCount, inCheck)
    }

    /** The cache, once filled, holds the generator's moves for the position held. */
    predicate CacheValid(e: Engine)
      reads this
    {
      validMoves.Some? ==> validMoves.value == e.calcMoves(Value())
    }

    /** A position object as the library builds one, with an empty cache. */
    constructor (p: Position)
      ensures Value() == p && validMoves == None
    {
      board := p.board;
      turn := p.turn;
      castleRights := p.castleRights;
      enPassantSquare := p.enPassantSquare;
      halfMoveClock := p.halfMoveClock;
      moveCount := p.moveCount;
      inCheck := p.inCheck;
      validMoves := None;
    }

    /** Position.ValidMoves: the cached moves when there are some; otherwise the generator's
        moves, which are cached. The position itself never changes, and a valid cache answers
        exactly what the generator would. */
    method ValidMoves(e: Engine) returns (moves: seq<Move>)
      modifies this
      ensures Value() == old(Value())
      ensures old(validMoves).Some? ==> moves == old(validMoves).value
      ensures old(validMoves).None? ==> moves == e.calcMoves(Value())
      ensures validMoves == Some(moves)
      ensures old(CacheValid(e)) ==> moves == e.calcMoves(Value()) && CacheValid(e)
    {
      if validMoves.Some? {
        return validMoves.value;
      }
      validMoves := Some(e.calcMoves(Value()));
      moves := validMoves.value;
    }

    /** Position.UnmarshalBinary: on a readable buffer the fields become the decoded position;
        otherwise the error and no field changes. The cache is left as it was, so it is only
        known to describe the new position when it was empty. */
    method UnmarshalBinary(data: seq<byte>, e: Engine) returns (err: Option<BinaryError>)
      modifies this
      ensures DecodeBinary(data, e).Ok? ==> err == None && Value() == DecodeBinary(data, e).value
      ensures DecodeBinary(data, e).Err? ==> err == Some(DecodeBinary(data, e).error) && Value() == old(Value())
      ensures validMoves == old(validMoves)
    {
      if |data| != EncodedSize {
        return Some(WrongLength);
      }
      var decodedBoard := e.boardFromBytes(data[..BoardSize]);
      if decodedBoard.None? {
        return Some(BadBoard);
      }
      var flags := data[102] as bv8;
      var hside := DecodeRookFile(data[100]);
      var aside := DecodeRookFile(data[101]);
      var ep := DecodeEnPassant(data[99], flags);
      if hside.Err? {
        return Some(hside.error);
      }
      if aside.Err? {
        return Some(aside.error);
      }
      if ep.Err? {
        return Some(ep.error);
      }
      board := decodedBoard.value;
      halfMoveClock := data[96] as int;
      moveCount := (data[97] as int) * 256 + data[98] as int;
      enPassantSquare := ep.value;
      castleRights := CastleRights(
        flags & BitsIsNineSixty != 0, aside.value, hside.value,
        flags & BitsCastleWhiteKing != 0, flags & BitsCastleWhiteQueen != 0,
        flags & BitsCastleBlackKing != 0, flags & BitsCastleBlackQueen != 0);
      turn := White;
      if flags & BitsTurn != 0 {
        turn := Black;
      }
      inCheck := e.isInCheck(board, turn);
      err := None;
    }
  }
}
