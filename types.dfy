/** Colors, pieces, squares and moves: the value types the position layer is built on.
    Square indices follow the library's layout: index = 8 * rank + file, so A1 = 0,
    H1 = 7 and A8 = 56. */
module Chess {
  import opened Wrappers

  datatype Color = NoColor | White | Black {
    /** The opposing color; NoColor has no opponent. */
    function Other(): (r: Color)
      ensures this != NoColor ==> r != NoColor && r != this
      ensures this == NoColor ==> r == NoColor
    {
      match this
      case White => Black
      case Black => White
      case NoColor => NoColor
    }

    /** The FEN turn letter. */
    function Name(): string {
      match this
      case White => "w"
      case Black => "b"
      case NoColor => "-"
    }
  }

  datatype PieceType = NoPieceType | King | Queen | Rook | Bishop | Knight | Pawn

  /** The types a pawn may be promoted to (PieceType.isPromotable). */
  predicate IsPromotable(t: PieceType) {
    t == Queen || t == Rook || t == Bishop || t == Knight
  }

  /** The twelve pieces and the empty marker, as the library enumerates them. */
  datatype Piece =
    | NoPiece
    | WhiteKing | WhiteQueen | WhiteRook | WhiteBishop | WhiteKnight | WhitePawn
    | BlackKing | BlackQueen | BlackRook | BlackBishop | BlackKnight | BlackPawn
  {
    function Color(): Color {
      match this
      case NoPiece => NoColor
      case WhiteKing | WhiteQueen | WhiteRook | WhiteBishop | WhiteKnight | WhitePawn => White
      case _ => Black
    }

    function Type(): PieceType {
      match this
      case NoPiece => NoPieceType
      case WhiteKing | BlackKing => King
      case WhiteQueen | BlackQueen => Queen
      case WhiteRook | BlackRook => Rook
      case WhiteBishop | BlackBishop => Bishop
      case WhiteKnight | BlackKnight => Knight
      case WhitePawn | BlackPawn => Pawn
    }
  }

  type File = f: int | 0 <= f < 8
  type Rank = r: int | 0 <= r < 8
  type Square = s: int | 0 <= s < 64

  /** A byte of a binary encoding. */
  type byte = b: int | 0 <= b < 256

  function FileOf(sq: Square): File { sq % 8 }
  function RankOf(sq: Square): Rank { sq / 8 }

  function NewSquare(f: File, r: Rank): (sq: Square)
  {
    8 * r + f
  }

  lemma SquareFromParts(sq: Square)
    ensures NewSquare(FileOf(sq), RankOf(sq)) == sq
  {
  }

  /** The lower-case letter of a file, 'a' for file A. */
  function FileLetter(f: File): (c: char)
    ensures 'a' <= c <= 'h'
  {
    ('a' as int + f) as char
  }

  /** The digit of a rank, '1' for the first rank. */
  function RankDigit(r: Rank): (c: char)
    ensures '1' <= c <= '8'
  {
    ('1' as int + r) as char
  }

  /** File.String(): the lower-case file letter. */
  function FileName(f: File): string {
    [FileLetter(f)]
  }

  /** Square.String(): file letter followed by rank digit, e.g. "e4". */
  function SquareName(sq: Square): (s: string)
    ensures |s| == 2 && 'a' <= s[0] <= 'h' && '1' <= s[1] <= '8'
  {
    [FileLetter(FileOf(sq)), RankDigit(RankOf(sq))]
  }

  /** Index of a lower-case file letter, if it is one. */
  function FileFromLetter(c: char): Option<File> {
    if 'a' <= c <= 'h' then Some(c as int - 'a' as int) else None
  }

  /** The lookup of a two-character name in the square-name table (strToSquareMap). */
  function ParseSquare(s: string): (r: Option<Square>)
    ensures r.Some? <==> |s| == 2 && 'a' <= s[0] <= 'h' && '1' <= s[1] <= '8'
  {
    if |s| == 2 && 'a' <= s[0] <= 'h' && '1' <= s[1] <= '8' then
      Some(NewSquare(s[0] as int - 'a' as int, s[1] as int - '1' as int))
    else None
  }

  lemma {:induction false} ParseSquareName(sq: Square)
    ensures ParseSquare(SquareName(sq)) == Some(sq)
  {
    var s := SquareName(sq);
    assert s[0] as int - 'a' as int == FileOf(sq);
    assert s[1] as int - '1' as int == RankOf(sq);
  }

  lemma {:induction false} ParseSquareInverse(s: string)
    requires ParseSquare(s).Some?
    ensures SquareName(ParseSquare(s).value) == s
  {
    var sq := ParseSquare(s).value;
    var t := SquareName(sq);
    assert t[0] == s[0] && t[1] == s[1];
  }

  lemma SquareNameInjective(a: Square, b: Square)
    requires SquareName(a) == SquareName(b)
    ensures a == b
  {
    ParseSquareName(a);
    ParseSquareName(b);
  }

  datatype MoveTag = KingSideCastle | QueenSideCastle | Capture | EnPassant | Check

  /** A move: origin s1, destination s2, promotion type and the tags the generator attached. */
  datatype Move = Move(s1: Square, s2: Square, promo: PieceType, tags: set<MoveTag>) {
    predicate HasTag(t: MoveTag) {
      t in tags
    }
  }

  /** PieceType.String(): the lower-case letter used in UCI promotions. */
  function TypeName(t: PieceType): string {
    match t
    case King => "k"
    case Queen => "q"
    case Rook => "r"
    case Bishop => "b"
    case Knight => "n"
    case Pawn => "p"
    case NoPieceType => ""
  }

  /** Move.String(): origin, destination and promotion letter, e.g. "e7e8q". */
  function MoveName(m: Move): string {
    SquareName(m.s1) + SquareName(m.s2) + TypeName(m.promo)
  }

  /** The outcome methods that the position status can report. */
  datatype Method = NoMethod | Checkmate | Stalemate

  /** The piece standing on every square, indexed by square. */
  type Board = b: seq<Piece> | |b| == 64 witness EmptyBoard()

  function EmptyBoard(): seq<Piece> {
    seq(64, _ => NoPiece)
  }

  /** The square of the given color's king, scanning A1..H8 and keeping the last one found;
      None when the board holds no such king. */
  function KingSquare(b: Board, c: Color): (r: Option<Square>)
    ensures r.Some? ==> b[r.value] == KingOf(c)
    ensures r.None? <==> forall sq: Square :: b[sq] != KingOf(c)
  {
    LastKingBelow(b, KingOf(c), 64)
  }

  function KingOf(c: Color): Piece {
    match c
    case White => WhiteKing
    case Black => BlackKing
    case NoColor => NoPiece
  }

  function LastKingBelow(b: Board, k: Piece, n: nat): (r: Option<Square>)
    requires n <= 64
    ensures r.Some? ==> r.value < n && b[r.value] == k
    ensures r.Some? ==> forall sq: Square :: r.value < sq < n ==> b[sq] != k
    ensures r.None? <==> forall sq: Square :: sq < n ==> b[sq] != k
  {
    if n == 0 then None
    else if b[n - 1] == k then Some(n - 1)
    else LastKingBelow(b, k, n - 1)
  }
}
