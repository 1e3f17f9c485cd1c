/** The move notations of notation.go: UCI text (origin, destination, promotion letter),
    standard algebraic notation with its origin disambiguation, and long algebraic notation.
    Encoding is string building; decoding parses UCI text or searches the legal moves for one
    whose encoding matches the text. */
module Notation {
  import opened Wrappers
  import opened Chess
  import opened Text
  import opened Positions
  import opened Seqs

  datatype NotationError =
    | BadLength         // UCI text that is not 4 or 5 bytes long
    | BadOrigin         // UCI text whose first two characters name no square
    | BadDestination    // UCI text whose third and fourth characters name no square
    | BadPromotion      // UCI text whose fifth character is not q, r, b or n
    | NoPosition        // an algebraic decode without a position
    | NotLegal          // text that matches no legal move of the position

  /** The moves the position allows (Position.ValidMoves). */
  function LegalMoves(p: Position, e: Engine): seq<Move> {
    e.calcMoves(p)
  }

  // ---------------------------------------------------------------------------------------
  // Piece letters

  /** charFromPieceType: the upper-case letter of a piece type; pawns and the empty type have
      none. */
  function CharFromPieceType(t: PieceType): (s: string)
    ensures s == "" <==> t == Pawn || t == NoPieceType
    ensures |s| <= 1
    ensures |s| == 1 ==> s[0] in "KQRBN"
  {
    match t
    case King => "K"
    case Queen => "Q"
    case Rook => "R"
    case Bishop => "B"
    case Knight => "N"
    case _ => ""
  }

  /** pieceTypeFromChar: q, r, b and n give the four promotable types, any other text the
      empty type. */
  function PieceTypeFromChar(c: string): (t: PieceType)
    ensures t != NoPieceType <==> c == "q" || c == "r" || c == "b" || c == "n"
    ensures t == NoPieceType || IsPromotable(t)
  {
    if c == "q" then Queen
    else if c == "r" then Rook
    else if c == "b" then Bishop
    else if c == "n" then Knight
    else NoPieceType
  }

  /** pieceTypeFromChar reads back the UCI letter of each promotable type, and the lower-case
      form of its algebraic letter. */
  lemma PieceTypeLetters(t: PieceType)
    requires IsPromotable(t)
    ensures PieceTypeFromChar(TypeName(t)) == t
    ensures |CharFromPieceType(t)| == 1 && TypeName(t)[0] as int == CharFromPieceType(t)[0] as int + 32
  {
  }

  /** charForPromo: "=" and the piece letter, or nothing when the letter is empty. */
  function CharForPromo(t: PieceType): (s: string)
    ensures s == "" <==> CharFromPieceType(t) == ""
    ensures s != "" ==> s == "=" + CharFromPieceType(t)
  {
    var c := CharFromPieceType(t);
    if c != "" then "=" + c else c
  }

  // ---------------------------------------------------------------------------------------
  // UCI notation

  /** UCINotation.Encode: origin square, destination square, promotion letter. */
  function UCIEncode(m: Move): (s: string)
    ensures |s| >= 4 && s[..4] == SquareName(m.s1) + SquareName(m.s2)
    ensures |s| == 4 <==> TypeName(m.promo) == ""
  {
    SquareName(m.s1) + SquareName(m.s2) + TypeName(m.promo)
  }

  /** The text read as UCI notation, without reference to a position. Lengths are byte lengths
      as in the library; since square names are ASCII, the byte slices s[0:2] and s[2:4] name
      squares exactly when the first four characters do, and a fifth byte is then the fifth
      character. */
  function UCIParse(s: string): (r: Result<Move, NotationError>)
    ensures r.Ok? ==> r.value.tags == {} && (r.value.promo == NoPieceType || IsPromotable(r.value.promo))
    ensures Utf8Len(s) < 4 || Utf8Len(s) > 5 ==> r == Err(BadLength)
  {
    if Utf8Len(s) < 4 || Utf8Len(s) > 5 then Err(BadLength)
    else if |s| < 2 || ParseSquare(s[..2]).None? then Err(BadOrigin)
    else if |s| < 4 || ParseSquare(s[2..4]).None? then Err(BadDestination)
    else
      var s1 := ParseSquare(s[..2]).value;
      var s2 := ParseSquare(s[2..4]).value;
      if Utf8Len(s) == 5 then
        AsciiPrefixLength(s, 4);
        var promo := PieceTypeFromChar(s[4..5]);
        if promo == NoPieceType then Err(BadPromotion)
        else Ok(Move(s1, s2, promo, {}))
      else
        AsciiPrefixLength(s, 4);
        Ok(Move(s1, s2, NoPieceType, {}))
  }

  /** A string that starts with k ASCII characters has k more bytes than characters after them:
      its byte length decides how many characters follow. */
  lemma {:induction false} AsciiPrefixLength(s: string, k: nat)
    requires k <= |s| && forall i :: 0 <= i < k ==> s[i] as int < 0x80
    ensures Utf8Len(s) == k + Utf8Len(s[k..])
    ensures Utf8Len(s) == k ==> |s| == k
    ensures Utf8Len(s) == k + 1 ==> |s| == k + 1
  {
    if k > 0 {
      AsciiPrefixLength(s[1..], k - 1);
      assert s[1..][k - 1..] == s[k..];
    } else if Utf8Len(s) == 1 && |s| > 1 {
      assert Utf8Len(s) >= |s|;
    }
  }

  /** Every parsed move prints back as the text it was read from. */
  lemma {:induction false} UCIParseEncode(s: string)
    requires UCIParse(s).Ok?
    ensures UCIEncode(UCIParse(s).value) == s
  {
    var m := UCIParse(s).value;
    ParseSquareInverse(s[..2]);
    ParseSquareInverse(s[2..4]);
    if Utf8Len(s) == 5 {
      AsciiPrefixLength(s, 4);
      assert s == s[..2] + s[2..4] + s[4..5];
    } else {
      AsciiPrefixLength(s, 4);
      assert s == s[..2] + s[2..4];
    }
  }

  /** Every move without a promotion or with a promotable type reads back from its text, without
      its tags. */
  lemma {:induction false} UCIEncodeParse(m: Move)
    requires m.promo == NoPieceType || IsPromotable(m.promo)
    ensures UCIParse(UCIEncode(m)) == Ok(Move(m.s1, m.s2, m.promo, {}))
  {
    var s := UCIEncode(m);
    ParseSquareName(m.s1);
    ParseSquareName(m.s2);
    assert s[..2] == SquareName(m.s1) && s[2..4] == SquareName(m.s2);
    assert forall i :: 0 <= i < |s| ==> s[i] as int < 0x80;
    if m.promo != NoPieceType {
      assert s[4..5] == TypeName(m.promo);
      PieceTypeLetters(m.promo);
    }
  }

  /** The first move from index i on whose UCI text (Move.String) is the given name. */
  function FirstNamed(moves: seq<Move>, name: string, i: nat): (r: Option<Move>)
    requires i <= |moves|
    ensures r.Some? ==> r.value in moves[i..] && MoveName(r.value) == name
    ensures r.None? <==> forall j :: i <= j < |moves| ==> MoveName(moves[j]) != name
    decreases |moves| - i
  {
    if i == |moves| then None
    else if MoveName(moves[i]) == name then Some(moves[i])
    else FirstNamed(moves, name, i + 1)
  }

  /** UCINotation.Decode: without a position the parsed move itself; with one, the first legal
      move with the same text, which carries the generator's tags. */
  function UCIDecodeSpec(pos: Option<Position>, e: Engine, s: string): Result<Move, NotationError> {
    var m :- UCIParse(s);
    if pos.None? then Ok(m)
    else
      match FirstNamed(LegalMoves(pos.value, e), MoveName(m), 0)
      case None => Err(NotLegal)
      case Some(legal) => Ok(legal)
  }

  /** UCINotation.Decode as written: parse, then compare the text of every legal move in turn. */
  method UCIDecode(pos: Option<Position>, e: Engine, s: string) returns (r: Result<Move, NotationError>)
    ensures r == UCIDecodeSpec(pos, e, s)
  {
    var parsed := UCIParse(s);
    if parsed.Err? {
      return Err(parsed.error);
    }
    var m := parsed.value;
    if pos.None? {
      return Ok(m);
    }
    var mStr := MoveName(m);
    var moves := LegalMoves(pos.value, e);
    var i := 0;
    while i < |moves|
      invariant 0 <= i <= |moves|
      invariant FirstNamed(moves, mStr, 0) == FirstNamed(moves, mStr, i)
    {
      if MoveName(moves[i]) == mStr {
        return Ok(moves[i]);
      }
      i := i + 1;
    }
    return Err(NotLegal);
  }

  /** With a position, UCI decoding only yields legal moves, and yields one exactly when some
      legal move has the text of the parsed move. */
  lemma UCIDecodeLegal(p: Position, e: Engine, s: string)
    ensures UCIDecodeSpec(Some(p), e, s).Ok? ==>
      UCIDecodeSpec(Some(p), e, s).value in LegalMoves(p, e) &&
      UCIEncode(UCIDecodeSpec(Some(p), e, s).value) == s
    ensures UCIDecodeSpec(Some(p), e, s) == Err(NotLegal) <==>
      UCIParse(s).Ok? && forall j :: 0 <= j < |LegalMoves(p, e)| ==> UCIEncode(LegalMoves(p, e)[j]) != s
  {
    if UCIParse(s).Ok? {
      UCIParseEncode(s);
    }
  }

  // ---------------------------------------------------------------------------------------
  // Algebraic and long algebraic notation

  /** getCheckChar: nothing for a move without the Check tag, "#" when the position after it is
      checkmate, "+" otherwise. */
  function CheckChar(p: Position, m: Move, e: Engine): (s: string)
    ensures s == "" <==> !m.HasTag(Check)
    ensures s == "#" <==> m.HasTag(Check) && e.status(Update(p, m, e)) == Checkmate
    ensures s == "" || s == "+" || s == "#"
  {
    if !m.HasTag(Check) then ""
    else if e.status(Update(p, m, e)) == Checkmate then "#"
    else "+"
  }

  /** Another legal move of the same piece to the same destination from a different origin. */
  predicate Rival(p: Position, m: Move, mv: Move) {
    mv.s1 != m.s1 && mv.s2 == m.s2 && p.board[m.s1] == p.board[mv.s1]
  }

  predicate SomeRival(p: Position, m: Move, moves: seq<Move>) {
    exists i :: 0 <= i < |moves| && Rival(p, m, moves[i])
  }

  /** A rival on the origin's file, which forces the rank to be written. */
  predicate RivalOnFile(p: Position, m: Move, moves: seq<Move>) {
    exists i :: 0 <= i < |moves| && Rival(p, m, moves[i]) && FileOf(moves[i].s1) == FileOf(m.s1)
  }

  /** A rival on the origin's rank, which forces the file to be written. */
  predicate RivalOnRank(p: Position, m: Move, moves: seq<Move>) {
    exists i :: 0 <= i < |moves| && Rival(p, m, moves[i]) && RankOf(moves[i].s1) == RankOf(m.s1)
  }

  /** The origin text of formS1: nothing for a pawn; otherwise the file when a rival shares the
      rank or when rivals exist but none shares the file, then the rank when a rival shares the
      file. */
  function OriginText(p: Position, m: Move, moves: seq<Move>): string {
    if p.board[m.s1].Type() == Pawn then ""
    else
      var fileReq := RivalOnRank(p, m, moves);
      var rankReq := RivalOnFile(p, m, moves);
      var req := SomeRival(p, m, moves);
      (if fileReq || (!rankReq && req) then FileName(FileOf(m.s1)) else "") +
      (if rankReq then [RankDigit(RankOf(m.s1))] else "")
  }

  /** formS1 as written: one pass over the legal moves raising the three flags. */
  method FormS1(p: Position, m: Move, e: Engine) returns (s1: string)
    ensures s1 == OriginText(p, m, LegalMoves(p, e))
  {
    var piece := p.board[m.s1];
    if piece.Type() == Pawn {
      return "";
    }
    var req, fileReq, rankReq := false, false, false;
    var moves := LegalMoves(p, e);
    var i := 0;
    while i < |moves|
      invariant 0 <= i <= |moves|
      invariant req <==> SomeRival(p, m, moves[..i])
      invariant rankReq <==> RivalOnFile(p, m, moves[..i])
      invariant fileReq <==> RivalOnRank(p, m, moves[..i])
    {
      var mv := moves[i];
      assert moves[..i + 1] == moves[..i] + [mv];
      if mv.s1 != m.s1 && mv.s2 == m.s2 && piece == p.board[mv.s1] {
        req := true;
        if FileOf(mv.s1) == FileOf(m.s1) {
          rankReq := true;
        }
        if RankOf(mv.s1) == RankOf(m.s1) {
          fileReq := true;
        }
      }
      i := i + 1;
    }
    assert moves[..i] == moves;
    s1 := "";
    if fileReq || (!rankReq && req) {
      s1 := FileName(FileOf(m.s1));
    }
    if rankReq {
      s1 := s1 + [RankDigit(RankOf(m.s1))];
    }
  }

  /** The origin text tells the origin apart from every rival: it writes the file and the
      rival's file differs, or it writes the rank and the rival's rank differs. */
  lemma OriginTextDistinguishes(p: Position, m: Move, moves: seq<Move>, j: nat)
    requires p.board[m.s1].Type() != Pawn
    requires j < |moves| && Rival(p, m, moves[j])
    ensures var s := OriginText(p, m, moves);
      || (|s| >= 1 && s[0] == FileLetter(FileOf(m.s1)) && FileOf(moves[j].s1) != FileOf(m.s1))
      || (|s| >= 1 && s[|s| - 1] == RankDigit(RankOf(m.s1)) && RankOf(moves[j].s1) != RankOf(m.s1))
  {
    var mv := moves[j];
    SquareFromParts(mv.s1);
    SquareFromParts(m.s1);
  }

  /** No rival, no origin text: an unambiguous piece move names only its destination. */
  lemma OriginTextMinimal(p: Position, m: Move, moves: seq<Move>)
    requires !SomeRival(p, m, moves)
    ensures OriginText(p, m, moves) == ""
  {
  }

  datatype Style = Algebraic | LongAlgebraic

  /** The capture mark: "x", preceded by the origin file for a pawn whose origin text is
      empty. */
  function CaptureText(m: Move, piece: Piece, s1: string): (s: string)
    ensures !(m.HasTag(Capture) || m.HasTag(EnPassant)) <==> s == ""
  {
    if m.HasTag(Capture) || m.HasTag(EnPassant) then
      if piece.Type() == Pawn && s1 == "" then FileName(FileOf(m.s1)) + "x" else "x"
    else ""
  }

  /** The origin text: formS1 in algebraic notation, the full origin square in long algebraic
      notation. */
  function OriginOf(style: Style, p: Position, m: Move, e: Engine): string {
    if style == Algebraic then OriginText(p, m, LegalMoves(p, e)) else SquareName(m.s1)
  }

  /** The text of a move that is not a castling: piece letter, origin text, capture mark,
      destination and promotion. */
  function PieceMoveText(style: Style, p: Position, m: Move, e: Engine): string {
    var piece := p.board[m.s1];
    var s1 := OriginOf(style, p, m, e);
    CharFromPieceType(piece.Type()) + s1 + CaptureText(m, piece, s1) + SquareName(m.s2) + CharForPromo(m.promo)
  }

  /** The text of a move before its check mark: "O-O" or "O-O-O" for castling, otherwise the
      piece move text. A move tagged with both castlings counts as king-side. */
  function MoveBody(style: Style, p: Position, m: Move, e: Engine): string {
    if m.HasTag(KingSideCastle) then "O-O"
    else if m.HasTag(QueenSideCastle) then "O-O-O"
    else PieceMoveText(style, p, m, e)
  }

  /** AlgebraicNotation.Encode and LongAlgebraicNotation.Encode: the move body followed by the
      check mark. */
  function MoveText(style: Style, p: Position, m: Move, e: Engine): (s: string)
    ensures m.HasTag(KingSideCastle) ==> s == "O-O" + CheckChar(p, m, e)
    ensures !m.HasTag(KingSideCastle) && m.HasTag(QueenSideCastle) ==> s == "O-O-O" + CheckChar(p, m, e)
  {
    MoveBody(style, p, m, e) + CheckChar(p, m, e)
  }

  /** Long algebraic text of a piece move: the piece letter is followed by the full origin
      square; a pawn capture is never prefixed by an extra file. */
  lemma LongAlgebraicOrigin(p: Position, m: Move, e: Engine)
    requires !m.HasTag(KingSideCastle) && !m.HasTag(QueenSideCastle)
    ensures var pc := CharFromPieceType(p.board[m.s1].Type());
      var s := MoveText(LongAlgebraic, p, m, e);
      |s| >= |pc| + 2 && s[..|pc| + 2] == pc + SquareName(m.s1)
    ensures CaptureText(m, p.board[m.s1], SquareName(m.s1)) == if m.HasTag(Capture) || m.HasTag(EnPassant) then "x" else ""
  {
    var pc := CharFromPieceType(p.board[m.s1].Type());
    var head := pc + SquareName(m.s1);
    var rest := CaptureText(m, p.board[m.s1], SquareName(m.s1)) + SquareName(m.s2) + CharForPromo(m.promo);
    assert OriginOf(LongAlgebraic, p, m, e) == SquareName(m.s1);
    assert PieceMoveText(LongAlgebraic, p, m, e) == head + rest;
    assert MoveText(LongAlgebraic, p, m, e) == head + (rest + CheckChar(p, m, e));
    PrefixOfAppend(head, rest + CheckChar(p, m, e));
  }

  /** A pawn capture in algebraic notation starts with the origin file and "x", and then names
      the destination. */
  lemma PawnCaptureText(p: Position, m: Move, e: Engine)
    requires !m.HasTag(KingSideCastle) && !m.HasTag(QueenSideCastle)
    requires p.board[m.s1].Type() == Pawn && (m.HasTag(Capture) || m.HasTag(EnPassant))
    ensures MoveText(Algebraic, p, m, e) ==
      [FileLetter(FileOf(m.s1)), 'x'] + SquareName(m.s2) + CharForPromo(m.promo) + CheckChar(p, m, e)
  {
    var body := [FileLetter(FileOf(m.s1)), 'x'] + SquareName(m.s2) + CharForPromo(m.promo);
    assert PieceMoveText(Algebraic, p, m, e) == body;
    assert MoveText(Algebraic, p, m, e) == body + CheckChar(p, m, e);
  }

  /** The Encode methods: the origin text comes from formS1 in algebraic notation. */
  method Encode(style: Style, p: Position, m: Move, e: Engine) returns (s: string)
    ensures s == MoveText(style, p, m, e)
  {
    var checkChar := CheckChar(p, m, e);
    if m.HasTag(KingSideCastle) {
      return "O-O" + checkChar;
    } else if m.HasTag(QueenSideCastle) {
      return "O-O-O" + checkChar;
    }
    var piece := p.board[m.s1];
    var pChar := CharFromPieceType(piece.Type());
    var s1Str;
    if style == Algebraic {
      s1Str := FormS1(p, m, e);
    } else {
      s1Str := SquareName(m.s1);
    }
    var capChar := "";
    if m.HasTag(Capture) || m.HasTag(EnPassant) {
      capChar := "x";
      if piece.Type() == Pawn && s1Str == "" {
        capChar := FileName(FileOf(m.s1)) + "x";
      }
    }
    var promoText := CharForPromo(m.promo);
    s := pChar + s1Str + capChar + SquareName(m.s2) + promoText + checkChar;
  }

  /** The string with every occurrence of c removed (strings.Replace with an empty new text and
      no limit). */
  function Remove(s: string, c: char): (r: string)
    ensures |r| <= |s|
    ensures c !in r
    ensures forall x :: x in r <==> x in s && x != c
    ensures c !in s ==> r == s
  {
    if |s| == 0 then ""
    else if s[0] == c then Remove(s[1..], c)
    else [s[0]] + Remove(s[1..], c)
  }

  /** sanitizeNotationString: the text without its "!" and "?" annotations. */
  function Sanitize(s: string): (r: string)
    ensures '!' !in r && '?' !in r
    ensures forall x :: x in r <==> x in s && x != '!' && x != '?'
    ensures '!' !in s && '?' !in s ==> r == s
  {
    Remove(Remove(s, '!'), '?')
  }

  /** Removing a character works piece by piece: the kept characters of a text stay in their
      order. */
  lemma {:induction false} RemoveAppend(a: string, b: string, c: char)
    ensures Remove(a + b, c) == Remove(a, c) + Remove(b, c)
  {
    if |a| == 0 {
      assert a + b == b;
    } else {
      assert (a + b)[0] == a[0];
      assert (a + b)[1..] == a[1..] + b;
      RemoveAppend(a[1..], b, c);
    }
  }

  /** Sanitizing a concatenation sanitizes each part in place. */
  lemma SanitizeAppend(a: string, b: string)
    ensures Sanitize(a + b) == Sanitize(a) + Sanitize(b)
  {
    RemoveAppend(a, b, '!');
    RemoveAppend(Remove(a, '!'), Remove(b, '!'), '?');
  }

  /** Annotations after a clean move text are stripped and leave the text itself. */
  lemma SanitizeStripsAnnotations(t: string, a: string)
    requires '!' !in t && '?' !in t
    requires forall i :: 0 <= i < |a| ==> a[i] == '!' || a[i] == '?'
    ensures Sanitize(t + a) == t
  {
    SanitizeAppend(t, a);
    SanitizeAnnotationsOnly(a);
    assert t + [] == t;
  }

  /** A text of annotations alone sanitizes to nothing. */
  lemma {:induction false} SanitizeAnnotationsOnly(a: string)
    requires forall i :: 0 <= i < |a| ==> a[i] == '!' || a[i] == '?'
    ensures Sanitize(a) == []
  {
    if |a| > 0 {
      assert a == [a[0]] + a[1..];
      SanitizeAppend([a[0]], a[1..]);
      SanitizeAnnotationsOnly(a[1..]);
    }
  }

  /** notationVariants: the text as given, with a check mark and with a mate mark. */
  function Variants(s: string): (vs: seq<string>)
    ensures |vs| == 3 && vs[0] == s && vs[1] == s + "+" && vs[2] == s + "#"
  {
    [s, s + "+", s + "#"]
  }

  /** The texts of the given moves, in the same order. */
  function MoveTexts(style: Style, p: Position, e: Engine, moves: seq<Move>): (ts: seq<string>)
    ensures |ts| == |moves|
    ensures forall j :: 0 <= j < |moves| ==> ts[j] == MoveText(style, p, moves[j], e)
  {
    seq(|moves|, j requires 0 <= j < |moves| => MoveText(style, p, moves[j], e))
  }

  /** The index of the first text from index i on that is one of the variants. */
  function FirstEncoded(ts: seq<string>, vs: seq<string>, i: nat): (r: Option<nat>)
    requires i <= |ts|
    ensures r.Some? ==> i <= r.value < |ts| && ts[r.value] in vs
    ensures r.Some? ==> forall j :: i <= j < r.value ==> ts[j] !in vs
    ensures r.None? <==> forall j :: i <= j < |ts| ==> ts[j] !in vs
    decreases |ts| - i
  {
    if i == |ts| then None
    else if ts[i] in vs then Some(i)
    else FirstEncoded(ts, vs, i + 1)
  }

  /** The Decode methods of the two algebraic notations: an error without a position; otherwise
      the first legal move whose text is the sanitized text, possibly followed by a check or a
      mate mark. */
  function DecodeSpec(style: Style, pos: Option<Position>, e: Engine, s: string): Result<Move, NotationError> {
    if pos.None? then Err(NoPosition)
    else
      var moves := LegalMoves(pos.value, e);
      match FirstEncoded(MoveTexts(style, pos.value, e, moves), Variants(Sanitize(s)), 0)
      case None => Err(NotLegal)
      case Some(k) => Ok(moves[k])
  }

  /** Decode as written: for every legal move, every variant is compared with its text. */
  method Decode(style: Style, pos: Option<Position>, e: Engine, s: string) returns (r: Result<Move, NotationError>)
    ensures r == DecodeSpec(style, pos, e, s)
  {
    if pos.None? {
      return Err(NoPosition);
    }
    var p := pos.value;
    var clean := Sanitize(s);
    var moves := LegalMoves(p, e);
    var vs := Variants(clean);
    ghost var ts := MoveTexts(style, p, e, moves);
    var i := 0;
    while i < |moves|
      invariant 0 <= i <= |moves|
      invariant FirstEncoded(ts, vs, 0) == FirstEncoded(ts, vs, i)
    {
      var m := moves[i];
      var moveStr := Encode(style, p, m, e);
      var hit := MatchesVariant(vs, moveStr);
      if hit {
        return Ok(m);
      }
      i := i + 1;
    }
    return Err(NotLegal);
  }

  /** The inner loop of Decode: the move's text compared with each variant in turn. */
  method MatchesVariant(vs: seq<string>, moveStr: string) returns (hit: bool)
    ensures hit <==> moveStr in vs
  {
    var j := 0;
    while j < |vs|
      invariant 0 <= j <= |vs|
      invariant forall k :: 0 <= k < j ==> vs[k] != moveStr
    {
      if moveStr == vs[j] {
        return true;
      }
      j := j + 1;
    }
    return false;
  }

  /** Algebraic decoding only ever yields legal moves whose text matches the sanitized text up to
      a check or mate mark, never one with an earlier matching move before it, and fails exactly
      when no legal move matches. */
  lemma {:induction false} DecodeLegal(style: Style, p: Position, e: Engine, s: string)
    ensures DecodeSpec(style, Some(p), e, s).Ok? ==>
      var m := DecodeSpec(style, Some(p), e, s).value;
      var t := MoveText(style, p, m, e);
      m in LegalMoves(p, e) && (t == Sanitize(s) || t == Sanitize(s) + "+" || t == Sanitize(s) + "#")
    ensures DecodeSpec(style, Some(p), e, s).Ok? ==>
      exists k :: 0 <= k < |LegalMoves(p, e)| && LegalMoves(p, e)[k] == DecodeSpec(style, Some(p), e, s).value &&
        forall j :: 0 <= j < k ==> MoveText(style, p, LegalMoves(p, e)[j], e) !in Variants(Sanitize(s))
    ensures DecodeSpec(style, Some(p), e, s) == Err(NotLegal) <==>
      forall j :: 0 <= j < |LegalMoves(p, e)| ==> MoveText(style, p, LegalMoves(p, e)[j], e) !in Variants(Sanitize(s))
  {
    var moves := LegalMoves(p, e);
    var vs := Variants(Sanitize(s));
    var ts := MoveTexts(style, p, e, moves);
    var r := FirstEncoded(ts, vs, 0);
    assert DecodeSpec(style, Some(p), e, s) == if r.None? then Err(NotLegal) else Ok(moves[r.value]);
    if r.Some? {
      var k := r.value;
      assert ts[k] == MoveText(style, p, moves[k], e);
      assert ts[k] in vs;
      forall j | 0 <= j < k ensures MoveText(style, p, moves[j], e) !in vs {
        assert ts[j] !in vs;
      }
    } else {
      forall j | 0 <= j < |moves| ensures MoveText(style, p, moves[j], e) !in vs {
        assert ts[j] !in vs;
      }
    }
  }
}
