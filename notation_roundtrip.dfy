/** Reading algebraic text back. Decoding searches the legal moves for one whose text matches,
    so it returns the encoded move exactly when the text of a legal move determines that move.
    This module proves it does: the text splits back into piece letter, origin text, capture
    mark, destination and promotion; formS1 writes enough of the origin to tell the move apart
    from every rival; and a check or mate mark can always be told apart from the body. */
module NotationRoundTrip {
  import opened Wrappers
  import opened Chess
  import opened Positions
  import opened Notation

  /** Characters of origin texts, capture marks and square names. */
  predicate LowerChar(c: char) {
    ('a' <= c <= 'h') || ('1' <= c <= '8') || c == 'x'
  }

  /** Characters of piece letters. */
  predicate UpperChar(c: char) {
    c == 'K' || c == 'Q' || c == 'R' || c == 'B' || c == 'N'
  }

  /** Characters a move body is made of: never a check mark or an annotation. */
  predicate BodyChar(c: char) {
    LowerChar(c) || UpperChar(c) || c == 'O' || c == '-' || c == '='
  }

  /** The part of a piece move text between the piece letter and the destination. */
  function OriginAndCapture(style: Style, p: Position, m: Move, e: Engine): string {
    var s1 := OriginOf(style, p, m, e);
    s1 + CaptureText(m, p.board[m.s1], s1)
  }

  // ---------------------------------------------------------------------------------------
  // Sequence splitting

  lemma SplitAt(a: string, b: string, c: string, d: string)
    requires a + b == c + d && |a| == |c|
    ensures a == c && b == d
  {
    assert a == (a + b)[..|a|] && c == (c + d)[..|c|];
    assert b == (a + b)[|a|..] && d == (c + d)[|c|..];
  }

  lemma SplitAtEnd(a: string, b: string, c: string, d: string)
    requires a + b == c + d && |b| == |d|
    ensures a == c && b == d
  {
    SplitAt(a, b, c, d);
  }

  // ---------------------------------------------------------------------------------------
  // The shape of each part

  /** formS1 writes nothing, the file, the rank, or the whole origin square. */
  lemma OriginTextShape(p: Position, m: Move, moves: seq<Move>)
    ensures var s := OriginText(p, m, moves);
      var f := FileLetter(FileOf(m.s1));
      var r := RankDigit(RankOf(m.s1));
      s == [] || s == [f] || s == [r] || s == [f, r]
  {
  }

  /** The origin text is nothing, the file, the rank, or the whole origin square; the long
      form is always the whole square. */
  lemma OriginShape(style: Style, p: Position, m: Move, e: Engine)
    ensures var s := OriginOf(style, p, m, e);
      var f := FileLetter(FileOf(m.s1));
      var r := RankDigit(RankOf(m.s1));
      s == [] || s == [f] || s == [r] || s == [f, r]
    ensures style == LongAlgebraic ==> OriginOf(style, p, m, e) == [FileLetter(FileOf(m.s1)), RankDigit(RankOf(m.s1))]
    ensures style == Algebraic && p.board[m.s1].Type() == Pawn ==> OriginOf(style, p, m, e) == []
  {
    OriginTextShape(p, m, LegalMoves(p, e));
  }

  /** Origin text and capture mark use only lower-case letters, digits and 'x'. */
  lemma OriginAndCaptureLower(style: Style, p: Position, m: Move, e: Engine)
    ensures forall c :: c in OriginAndCapture(style, p, m, e) ==> LowerChar(c)
    ensures forall c :: c in OriginOf(style, p, m, e) ==> c != 'x'
  {
    OriginShape(style, p, m, e);
  }

  /** The promotion suffix of a move that does not promote to a pawn: empty, or "=" followed by
      a piece letter. */
  lemma PromoShape(t: PieceType)
    requires t != Pawn
    ensures CharForPromo(t) == "" <==> t == NoPieceType
    ensures CharForPromo(t) != "" ==> |CharForPromo(t)| == 2 && CharForPromo(t)[0] == '=' && UpperChar(CharForPromo(t)[1])
  {
  }

  /** Different promotion types other than pawns have different suffixes. */
  lemma PromoInjective(a: PieceType, b: PieceType)
    requires a != Pawn && b != Pawn && CharForPromo(a) == CharForPromo(b)
    ensures a == b
  {
    PromoShape(a);
    PromoShape(b);
    if CharForPromo(a) != "" {
      assert CharFromPieceType(a) == CharForPromo(a)[1..] == CharFromPieceType(b);
      PieceLetterInjective(a, b);
    }
  }

  /** Piece letters tell piece types apart, except that pawns and empty squares have none. */
  lemma PieceLetterInjective(a: PieceType, b: PieceType)
    requires CharFromPieceType(a) == CharFromPieceType(b) && CharFromPieceType(a) != ""
    ensures a == b
  {
  }

  /** The four parts of a piece move text: a piece letter or nothing; origin text and capture
      mark in lower-case letters, digits and 'x'; a square name; no promotion, or "=" and a
      piece letter. */
  predicate PieceTextParts(pc: string, rest: string, sq: string, pr: string) {
    && (pc == "" || (|pc| == 1 && UpperChar(pc[0])))
    && (forall c :: c in rest ==> LowerChar(c))
    && |sq| == 2 && 'a' <= sq[0] <= 'h' && '1' <= sq[1] <= '8'
    && (pr == "" || (|pr| == 2 && pr[0] == '=' && UpperChar(pr[1])))
  }

  /** Every piece move text is made of the four parts. */
  lemma PieceMoveParts(style: Style, p: Position, m: Move, e: Engine)
    requires m.promo != Pawn
    ensures PieceTextParts(CharFromPieceType(p.board[m.s1].Type()), OriginAndCapture(style, p, m, e),
                           SquareName(m.s2), CharForPromo(m.promo))
    ensures PieceMoveText(style, p, m, e) ==
      CharFromPieceType(p.board[m.s1].Type()) + OriginAndCapture(style, p, m, e) + SquareName(m.s2) + CharForPromo(m.promo)
  {
    var pc := CharFromPieceType(p.board[m.s1].Type());
    var s1 := OriginOf(style, p, m, e);
    var cap := CaptureText(m, p.board[m.s1], s1);
    assert pc + s1 + cap == pc + (s1 + cap);
    OriginAndCaptureLower(style, p, m, e);
    PromoShape(m.promo);
  }

  /** A text made of the four parts is at least a square long, consists of body characters, and
      does not start with the 'O' of castling. */
  lemma PieceTextChars(pc: string, rest: string, sq: string, pr: string)
    requires PieceTextParts(pc, rest, sq, pr)
    ensures var t := pc + rest + sq + pr;
      |t| >= 2 && t[0] != 'O' && forall c :: c in t ==> BodyChar(c)
  {
    var t := pc + rest + sq + pr;
    assert t[0] != 'O' by {
      if pc != "" {
        assert t[0] == pc[0];
      } else if rest != "" {
        assert t[0] == rest[0] && rest[0] in rest;
      } else {
        assert t[0] == sq[0];
      }
    }
  }

  /** A piece move text is at least a square long, its characters are body characters, and it
      does not start with the 'O' of castling. */
  lemma PieceMoveTextChars(style: Style, p: Position, m: Move, e: Engine)
    requires m.promo != Pawn
    ensures var t := PieceMoveText(style, p, m, e);
      |t| >= 2 && t[0] != 'O' && forall c :: c in t ==> BodyChar(c)
  {
    PieceMoveParts(style, p, m, e);
    PieceTextChars(CharFromPieceType(p.board[m.s1].Type()), OriginAndCapture(style, p, m, e),
                   SquareName(m.s2), CharForPromo(m.promo));
  }

  /** A move body is not empty and consists of body characters only. */
  lemma MoveBodyChars(style: Style, p: Position, m: Move, e: Engine)
    requires m.promo != Pawn
    ensures |MoveBody(style, p, m, e)| > 0
    ensures forall c :: c in MoveBody(style, p, m, e) ==> BodyChar(c)
  {
    PieceMoveTextChars(style, p, m, e);
  }

  /** The text of a move carries no annotation, so sanitizing leaves it as it is. */
  lemma SanitizeMoveText(style: Style, p: Position, m: Move, e: Engine)
    requires m.promo != Pawn
    ensures Sanitize(MoveText(style, p, m, e)) == MoveText(style, p, m, e)
  {
    MoveBodyChars(style, p, m, e);
    var body := MoveBody(style, p, m, e);
    var mark := CheckChar(p, m, e);
    assert !BodyChar('!') && !BodyChar('?');
    assert '!' !in body && '?' !in body;
    assert '!' !in mark && '?' !in mark;
    assert MoveText(style, p, m, e) == body + mark;
  }

  // ---------------------------------------------------------------------------------------
  // Check marks

  /** Check and mate marks. */
  predicate IsMark(c: char) {
    c == '+' || c == '#'
  }

  /** The text without its trailing check and mate marks. */
  function StripMarks(s: string): (r: string)
    ensures |r| <= |s|
    ensures |r| > 0 ==> !IsMark(r[|r| - 1])
  {
    if |s| > 0 && IsMark(s[|s| - 1]) then StripMarks(s[..|s| - 1]) else s
  }

  /** Stripping the marks off a body followed by marks gives back the body. */
  lemma {:induction false} StripMarksOf(b: string, c: string)
    requires |b| > 0 && !IsMark(b[|b| - 1])
    requires forall i :: 0 <= i < |c| ==> IsMark(c[i])
    ensures StripMarks(b + c) == b
    decreases |c|
  {
    if c == "" {
      assert b + c == b;
    } else {
      var s := b + c;
      assert s[|s| - 1] == c[|c| - 1];
      assert s[..|s| - 1] == b + c[..|c| - 1];
      StripMarksOf(b, c[..|c| - 1]);
    }
  }

  /** A text of check and mate marks only. */
  predicate Marks(s: string) {
    forall i :: 0 <= i < |s| ==> IsMark(s[i])
  }

  /** Two bodies ending in body characters, each followed by marks, are equal if the texts
      are. */
  lemma StripCheck(b1: string, c1: string, b2: string, c2: string)
    requires |b1| > 0 && |b2| > 0 && BodyChar(b1[|b1| - 1]) && BodyChar(b2[|b2| - 1])
    requires Marks(c1) && Marks(c2)
    requires b2 + c2 == b1 + c1
    ensures b1 == b2
  {
    StripMarksOf(b1, c1);
    StripMarksOf(b2, c2);
  }

  /** A move whose text is one of the variants of another move's text has the same body. */
  lemma VariantSameBody(style: Style, p: Position, m: Move, m': Move, e: Engine)
    requires m.promo != Pawn && m'.promo != Pawn
    requires MoveText(style, p, m', e) in Variants(MoveText(style, p, m, e))
    ensures MoveBody(style, p, m', e) == MoveBody(style, p, m, e)
  {
    var b1, b2 := MoveBody(style, p, m, e), MoveBody(style, p, m', e);
    MoveBodyChars(style, p, m, e);
    MoveBodyChars(style, p, m', e);
    assert b1[|b1| - 1] in b1 && b2[|b2| - 1] in b2;
    VariantBodies(b1, CheckChar(p, m, e), b2, CheckChar(p, m', e));
  }

  /** The string form of the step above: a body and its marks that equal a variant of another
      body and its marks have the same body. */
  lemma VariantBodies(b1: string, c1: string, b2: string, c2: string)
    requires |b1| > 0 && |b2| > 0 && BodyChar(b1[|b1| - 1]) && BodyChar(b2[|b2| - 1])
    requires Marks(c1) && Marks(c2)
    requires b2 + c2 in Variants(b1 + c1)
    ensures b1 == b2
  {
    var vs := Variants(b1 + c1);
    var extra := if b2 + c2 == vs[0] then "" else if b2 + c2 == vs[1] then "+" else "#";
    assert b2 + c2 == b1 + c1 + extra;
    assert b1 + c1 + extra == b1 + (c1 + extra);
    StripCheck(b1, c1 + extra, b2, c2);
  }

  // ---------------------------------------------------------------------------------------
  // Splitting a piece move text

  /** A text made of the four parts ends in a digit exactly when it has no promotion. */
  lemma PromoLast(pc: string, r: string, sq: string, pr: string)
    requires PieceTextParts(pc, r, sq, pr)
    ensures var t := pc + r + sq + pr;
      |t| > 0 && (pr == "" <==> '1' <= t[|t| - 1] <= '8')
  {
    var t := pc + r + sq + pr;
    if pr == "" {
      assert t[|t| - 1] == sq[1];
    } else {
      assert t[|t| - 1] == pr[1];
    }
  }

  /** Piece letter and origin text start with an upper-case letter exactly when there is a
      piece letter. */
  lemma PieceFirst(pc: string, r: string)
    requires pc == "" || (|pc| == 1 && UpperChar(pc[0]))
    requires forall c :: c in r ==> LowerChar(c)
    ensures pc != "" <==> |pc + r| > 0 && UpperChar((pc + r)[0])
  {
    if pc != "" {
      assert (pc + r)[0] == pc[0];
    } else if r != "" {
      assert (pc + r)[0] == r[0] && r[0] in r;
    }
  }

  /** Two texts made of the four parts are equal only if their parts are: the last character
      tells whether a promotion follows, the square name has a fixed length, and only piece
      letters are upper-case. */
  lemma PieceTextSplit(pc: string, r: string, sq: string, pr: string, pc': string, r': string, sq': string, pr': string)
    requires PieceTextParts(pc, r, sq, pr) && PieceTextParts(pc', r', sq', pr')
    requires pc + r + sq + pr == pc' + r' + sq' + pr'
    ensures pc == pc' && r == r' && sq == sq' && pr == pr'
  {
    PromoLast(pc, r, sq, pr);
    PromoLast(pc', r', sq', pr');
    SplitAtEnd(pc + r + sq, pr, pc' + r' + sq', pr');
    SplitAtEnd(pc + r, sq, pc' + r', sq');
    PieceFirst(pc, r);
    PieceFirst(pc', r');
    SplitAt(pc, r, pc', r');
  }

  /** Two piece move texts that are equal have the same piece letter, origin text and capture
      mark, destination and promotion. */
  lemma PieceMoveSplit(style: Style, p: Position, m: Move, m': Move, e: Engine)
    requires m.promo != Pawn && m'.promo != Pawn
    requires PieceMoveText(style, p, m, e) == PieceMoveText(style, p, m', e)
    ensures CharFromPieceType(p.board[m.s1].Type()) == CharFromPieceType(p.board[m'.s1].Type())
    ensures OriginAndCapture(style, p, m, e) == OriginAndCapture(style, p, m', e)
    ensures m.s2 == m'.s2 && m.promo == m'.promo
  {
    PieceMoveParts(style, p, m, e);
    PieceMoveParts(style, p, m', e);
    PieceTextSplit(CharFromPieceType(p.board[m.s1].Type()), OriginAndCapture(style, p, m, e),
                   SquareName(m.s2), CharForPromo(m.promo),
                   CharFromPieceType(p.board[m'.s1].Type()), OriginAndCapture(style, p, m', e),
                   SquareName(m'.s2), CharForPromo(m'.promo));
    PromoInjective(m.promo, m'.promo);
    SquareNameInjective(m.s2, m'.s2);
  }

  /** In long algebraic notation the origin text is the whole origin square, so equal texts
      have equal origins. */
  lemma LongOriginSplit(p: Position, m: Move, m': Move, e: Engine)
    requires OriginAndCapture(LongAlgebraic, p, m, e) == OriginAndCapture(LongAlgebraic, p, m', e)
    ensures m.s1 == m'.s1
  {
    SplitAt(SquareName(m.s1), CaptureText(m, p.board[m.s1], SquareName(m.s1)),
            SquareName(m'.s1), CaptureText(m', p.board[m'.s1], SquareName(m'.s1)));
    SquareNameInjective(m.s1, m'.s1);
  }

  /** An origin text followed by a bare capture mark ends in 'x' exactly when the mark is
      there. */
  lemma CaptureLast(o: string, c: string)
    requires 'x' !in o && (c == "" || c == "x")
    ensures c == "x" <==> |o + c| > 0 && (o + c)[|o + c| - 1] == 'x'
  {
    if c == "x" {
      assert (o + c)[|o + c| - 1] == c[0];
    } else if o != "" {
      assert o + c == o && o[|o| - 1] in o;
    }
  }

  /** For pieces other than pawns the capture mark is a bare "x", which no origin text
      contains, so equal texts have equal origin texts and the same capture status. */
  lemma PieceOriginSplit(style: Style, p: Position, m: Move, m': Move, e: Engine)
    requires p.board[m.s1].Type() != Pawn && p.board[m'.s1].Type() != Pawn
    requires OriginAndCapture(style, p, m, e) == OriginAndCapture(style, p, m', e)
    ensures OriginOf(style, p, m, e) == OriginOf(style, p, m', e)
  {
    var o, o' := OriginOf(style, p, m, e), OriginOf(style, p, m', e);
    var c, c' := CaptureText(m, p.board[m.s1], o), CaptureText(m', p.board[m'.s1], o');
    var r := OriginAndCapture(style, p, m, e);
    OriginAndCaptureLower(style, p, m, e);
    OriginAndCaptureLower(style, p, m', e);
    CaptureLast(o, c);
    CaptureLast(o', c');
    SplitAtEnd(o, c, o', c');
  }

  // ---------------------------------------------------------------------------------------
  // Disambiguation

  /** Two different legal moves of the same piece to the same destination never get the same
      origin text: each is a rival of the other, and formS1 writes a file or a rank that tells
      them apart. */
  lemma OriginTextSeparates(p: Position, m: Move, m': Move, moves: seq<Move>)
    requires m in moves && m' in moves
    requires p.board[m.s1].Type() != Pawn && p.board[m.s1] == p.board[m'.s1]
    requires m.s2 == m'.s2 && OriginText(p, m, moves) == OriginText(p, m', moves)
    ensures m.s1 == m'.s1
  {
    if m.s1 != m'.s1 {
      var j :| 0 <= j < |moves| && moves[j] == m';
      SameOriginText(p, m, m', moves);
      OriginTextDistinguishes(p, m, moves, j);
    }
  }

  /** When two moves share an origin text, a file or rank that text shows for one is the other's
      too. */
  lemma SameOriginText(p: Position, m: Move, m': Move, moves: seq<Move>)
    requires OriginText(p, m, moves) == OriginText(p, m', moves)
    ensures var s := OriginText(p, m, moves);
      |s| >= 1 && s[0] == FileLetter(FileOf(m.s1)) ==> FileOf(m.s1) == FileOf(m'.s1)
    ensures var s := OriginText(p, m, moves);
      |s| >= 1 && s[|s| - 1] == RankDigit(RankOf(m.s1)) ==> RankOf(m.s1) == RankOf(m'.s1)
  {
    OriginTextShape(p, m, moves);
    OriginTextShape(p, m', moves);
  }

  /** A piece is determined by its type and its colour. */
  lemma PieceFromParts(a: Piece, b: Piece)
    requires a.Type() == b.Type() && a.Color() == b.Color()
    ensures a == b
  {
  }

  // ---------------------------------------------------------------------------------------
  // Round trips

  /** Every legal move moves a piece of the side to move and never promotes to a pawn. */
  predicate LegalMovesWellFormed(p: Position, e: Engine) {
    forall mv :: mv in LegalMoves(p, e) ==>
      p.board[mv.s1] != NoPiece && p.board[mv.s1].Color() == p.turn && mv.promo != Pawn
  }

  /** Legal moves differ in origin, destination or promotion, and at most one castles to each
      side. */
  predicate LegalMovesDistinct(p: Position, e: Engine) {
    && (forall a, b :: a in LegalMoves(p, e) && b in LegalMoves(p, e) ==>
          (a.s1 == b.s1 && a.s2 == b.s2 && a.promo == b.promo ==> a == b))
    && (forall a, b :: a in LegalMoves(p, e) && b in LegalMoves(p, e) ==>
          (a.HasTag(KingSideCastle) && b.HasTag(KingSideCastle) ==> a == b))
    && (forall a, b :: a in LegalMoves(p, e) && b in LegalMoves(p, e) ==>
          (a.HasTag(QueenSideCastle) && b.HasTag(QueenSideCastle) ==> a == b))
  }

  /** Castling texts begin with 'O', which no other move text does, and the two castlings have
      different bodies, in either notation. */
  lemma CastleBodies(style: Style, p: Position, m: Move, m': Move, e: Engine)
    requires m.promo != Pawn && m'.promo != Pawn
    requires MoveBody(style, p, m, e) == MoveBody(style, p, m', e)
    ensures (m.HasTag(KingSideCastle) || m.HasTag(QueenSideCastle)) <==>
            (m'.HasTag(KingSideCastle) || m'.HasTag(QueenSideCastle))
    ensures m.HasTag(KingSideCastle) || m.HasTag(QueenSideCastle) ==>
            (m.HasTag(KingSideCastle) <==> m'.HasTag(KingSideCastle))
  {
    PieceMoveTextChars(style, p, m, e);
    PieceMoveTextChars(style, p, m', e);
  }

  /** Among the legal moves, a body belongs to one move only, except for pawn moves in
      algebraic notation. */
  lemma {:induction false} BodyDetermines(style: Style, p: Position, m: Move, m': Move, e: Engine)
    requires LegalMovesWellFormed(p, e) && LegalMovesDistinct(p, e)
    requires m in LegalMoves(p, e) && m' in LegalMoves(p, e)
    requires style == LongAlgebraic || p.board[m.s1].Type() != Pawn ||
             m.HasTag(KingSideCastle) || m.HasTag(QueenSideCastle)
    requires MoveBody(style, p, m, e) == MoveBody(style, p, m', e)
    ensures m == m'
  {
    CastleBodies(style, p, m, m', e);
    if !(m.HasTag(KingSideCastle) || m.HasTag(QueenSideCastle)) {
      PieceMoveSplit(style, p, m, m', e);
      if style == LongAlgebraic {
        LongOriginSplit(p, m, m', e);
      } else {
        var t, t' := p.board[m.s1].Type(), p.board[m'.s1].Type();
        PieceLetterInjective(t, t');
        PieceFromParts(p.board[m.s1], p.board[m'.s1]);
        PieceOriginSplit(style, p, m, m', e);
        OriginTextSeparates(p, m, m', LegalMoves(p, e));
      }
    }
  }

  /** Decoding the text of a legal move finds a legal move with the same body. */
  lemma {:induction false} DecodeFindsBody(style: Style, p: Position, m: Move, e: Engine)
    requires LegalMovesWellFormed(p, e)
    requires m in LegalMoves(p, e)
    ensures var r := DecodeSpec(style, Some(p), e, MoveText(style, p, m, e));
      r.Ok? && r.value in LegalMoves(p, e) && MoveBody(style, p, r.value, e) == MoveBody(style, p, m, e)
  {
    var moves := LegalMoves(p, e);
    var t := MoveText(style, p, m, e);
    SanitizeMoveText(style, p, m, e);
    var vs := Variants(t);
    var ts := MoveTexts(style, p, e, moves);
    var j :| 0 <= j < |moves| && moves[j] == m;
    assert ts[j] in vs;
    var k := FirstEncoded(ts, vs, 0).value;
    var m' := moves[k];
    assert MoveText(style, p, m', e) == ts[k];
    VariantSameBody(style, p, m, m', e);
  }

  /** Decoding the algebraic or long algebraic text of a legal move yields that move, for every
      move except a pawn move in algebraic notation. */
  lemma {:induction false} DecodeEncode(style: Style, p: Position, m: Move, e: Engine)
    requires LegalMovesWellFormed(p, e) && LegalMovesDistinct(p, e)
    requires m in LegalMoves(p, e)
    requires style == LongAlgebraic || p.board[m.s1].Type() != Pawn ||
             m.HasTag(KingSideCastle) || m.HasTag(QueenSideCastle)
    ensures DecodeSpec(style, Some(p), e, MoveText(style, p, m, e)) == Ok(m)
  {
    DecodeFindsBody(style, p, m, e);
    var m' := DecodeSpec(style, Some(p), e, MoveText(style, p, m, e)).value;
    BodyDetermines(style, p, m, m', e);
  }

  /** Equal algebraic texts of two pawn moves have the same capture mark, which for a pawn
      names its file. */
  lemma PawnCaptureSplit(p: Position, m: Move, m': Move, e: Engine)
    requires p.board[m.s1].Type() == Pawn && p.board[m'.s1].Type() == Pawn
    requires OriginAndCapture(Algebraic, p, m, e) == OriginAndCapture(Algebraic, p, m', e)
    ensures (m.HasTag(Capture) || m.HasTag(EnPassant)) <==> (m'.HasTag(Capture) || m'.HasTag(EnPassant))
    ensures (m.HasTag(Capture) || m.HasTag(EnPassant)) ==> FileOf(m.s1) == FileOf(m'.s1)
  {
    OriginShape(Algebraic, p, m, e);
    OriginShape(Algebraic, p, m', e);
    var c, c' := CaptureText(m, p.board[m.s1], ""), CaptureText(m', p.board[m'.s1], "");
    assert c == c' by {
      assert OriginOf(Algebraic, p, m, e) == "" && OriginOf(Algebraic, p, m', e) == "";
      assert OriginAndCapture(Algebraic, p, m, e) == "" + c == c;
      assert OriginAndCapture(Algebraic, p, m', e) == "" + c' == c';
    }
    if m.HasTag(Capture) || m.HasTag(EnPassant) {
      assert c[0] == FileLetter(FileOf(m.s1)) && c'[0] == FileLetter(FileOf(m'.s1));
    }
  }

  /** Decoding the algebraic text of a legal pawn move yields a legal pawn move to the same
      square with the same promotion, capturing exactly when the encoded move captures, and
      from the same file when it does. */
  lemma {:induction false} DecodeEncodePawn(p: Position, m: Move, e: Engine)
    requires LegalMovesWellFormed(p, e)
    requires m in LegalMoves(p, e)
    requires p.board[m.s1].Type() == Pawn && !m.HasTag(KingSideCastle) && !m.HasTag(QueenSideCastle)
    ensures var r := DecodeSpec(Algebraic, Some(p), e, MoveText(Algebraic, p, m, e));
      && r.Ok? && r.value in LegalMoves(p, e)
      && p.board[r.value.s1].Type() == Pawn
      && r.value.s2 == m.s2 && r.value.promo == m.promo
      && ((r.value.HasTag(Capture) || r.value.HasTag(EnPassant)) <==> (m.HasTag(Capture) || m.HasTag(EnPassant)))
      && ((m.HasTag(Capture) || m.HasTag(EnPassant)) ==> FileOf(r.value.s1) == FileOf(m.s1))
  {
    DecodeFindsBody(Algebraic, p, m, e);
    var r := DecodeSpec(Algebraic, Some(p), e, MoveText(Algebraic, p, m, e));
    PawnBodyMatch(p, m, r.value, e);
  }

  /** A legal move with the same algebraic body as a pawn move is a pawn move to the same square
      with the same promotion, capturing exactly when the other does, from the same file when
      capturing. */
  lemma PawnBodyMatch(p: Position, m: Move, m': Move, e: Engine)
    requires LegalMovesWellFormed(p, e)
    requires m in LegalMoves(p, e) && m' in LegalMoves(p, e)
    requires p.board[m.s1].Type() == Pawn && !m.HasTag(KingSideCastle) && !m.HasTag(QueenSideCastle)
    requires MoveBody(Algebraic, p, m', e) == MoveBody(Algebraic, p, m, e)
    ensures p.board[m'.s1].Type() == Pawn && m'.s2 == m.s2 && m'.promo == m.promo
    ensures (m'.HasTag(Capture) || m'.HasTag(EnPassant)) <==> (m.HasTag(Capture) || m.HasTag(EnPassant))
    ensures (m.HasTag(Capture) || m.HasTag(EnPassant)) ==> FileOf(m'.s1) == FileOf(m.s1)
  {
    CastleBodies(Algebraic, p, m, m', e);
    PieceMoveSplit(Algebraic, p, m, m', e);
    assert p.board[m'.s1].Type() == Pawn;
    PawnCaptureSplit(p, m, m', e);
  }

  // ---------------------------------------------------------------------------------------
  // UCI round trip

  /** Type letters tell piece types apart, except that pawns and the absent type have none. */
  lemma TypeNameInjective(a: PieceType, b: PieceType)
    requires a != Pawn && b != Pawn && TypeName(a) == TypeName(b)
    ensures a == b
  {
  }

  /** The UCI text of a move gives back its origin, destination and promotion, for moves
      that do not promote to a pawn. */
  lemma MoveNameInjective(a: Move, b: Move)
    requires a.promo != Pawn && b.promo != Pawn && MoveName(a) == MoveName(b)
    ensures a.s1 == b.s1 && a.s2 == b.s2 && a.promo == b.promo
  {
    assert MoveName(a) == SquareName(a.s1) + (SquareName(a.s2) + TypeName(a.promo));
    assert MoveName(b) == SquareName(b.s1) + (SquareName(b.s2) + TypeName(b.promo));
    SplitAt(SquareName(a.s1), SquareName(a.s2) + TypeName(a.promo), SquareName(b.s1), SquareName(b.s2) + TypeName(b.promo));
    SplitAt(SquareName(a.s2), TypeName(a.promo), SquareName(b.s2), TypeName(b.promo));
    SquareNameInjective(a.s1, b.s1);
    SquareNameInjective(a.s2, b.s2);
    TypeNameInjective(a.promo, b.promo);
  }

  /** UCI text round trip: with a position, the UCI text of a legal move without promotion or
      promoting to a queen, rook, bishop or knight decodes back to that move, tags included. */
  lemma UCIDecodeEncode(p: Position, m: Move, e: Engine)
    requires LegalMovesWellFormed(p, e) && LegalMovesDistinct(p, e)
    requires m in LegalMoves(p, e)
    requires m.promo == NoPieceType || IsPromotable(m.promo)
    ensures UCIDecodeSpec(Some(p), e, UCIEncode(m)) == Ok(m)
  {
    UCIEncodeParse(m);
    var found := FirstNamed(LegalMoves(p, e), MoveName(m), 0);
    assert found.Some?;
    MoveNameInjective(found.value, m);
  }
}
