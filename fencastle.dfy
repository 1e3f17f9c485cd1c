/** The castling field of FEN (formCastleRights in fen.go). Normal mode accepts the letters
    K, Q, k, q backed by a king on E1/E8 and a rook in the corner; Chess960 mode accepts
    Shredder-FEN file letters and X-FEN K/Q letters, recording the rook starting files. */
module FenCastle {
  import opened Wrappers
  import opened Chess
  import opened Castling
  import opened Text
  import opened FenBoards

  /** Some character occurs twice. */
  predicate HasDuplicates(s: string) {
    exists i, j :: 0 <= i < j < |s| && s[i] == s[j]
  }

  /** hasDuplicateCharacters: one pass remembering the characters seen. */
  method HasDuplicateCharacters(s: string) returns (dup: bool)
    ensures dup == HasDuplicates(s)
  {
    var seen: set<char> := {};
    var i := 0;
    while i < |s|
      invariant 0 <= i <= |s|
      invariant seen == set k | 0 <= k < i :: s[k]
      invariant forall a, b :: 0 <= a < b < i ==> s[a] != s[b]
    {
      if s[i] in seen {
        ghost var a :| 0 <= a < i && s[a] == s[i];
        return true;
      }
      seen := seen + {s[i]};
      i := i + 1;
    }
    return false;
  }

  predicate IsCastleLetter(c: char) {
    c == 'K' || c == 'Q' || c == 'k' || c == 'q'
  }

  predicate OnlyKQkq(s: string) {
    forall i :: 0 <= i < |s| ==> IsCastleLetter(s[i])
  }

  /** hasOnlyKQkq: every character is one of K, Q, k, q. */
  method HasOnlyKQkq(s: string) returns (only: bool)
    ensures only == OnlyKQkq(s)
  {
    var i := 0;
    while i < |s|
      invariant 0 <= i <= |s|
      invariant forall k :: 0 <= k < i ==> IsCastleLetter(s[k])
    {
      if !IsCastleLetter(s[i]) {
        return false;
      }
      i := i + 1;
    }
    return true;
  }

  const E1: Square := 4
  const H1: Square := 7
  const A1: Square := 0
  const E8: Square := 60
  const H8: Square := 63
  const A8: Square := 56

  /** The normal-mode rules: only K, Q, k, q, each backed by its king and corner rook. */
  function NormalCastle(s: string, b: Board): Result<CastleRights, FenError> {
    if !OnlyKQkq(s) then Err(NotKQkq)
    else if 'K' in s && (b[E1] != WhiteKing || b[H1] != WhiteRook) then Err(MissingCastlePieces)
    else if 'Q' in s && (b[E1] != WhiteKing || b[A1] != WhiteRook) then Err(MissingCastlePieces)
    else if 'k' in s && (b[E8] != BlackKing || b[H8] != BlackRook) then Err(MissingCastlePieces)
    else if 'q' in s && (b[E8] != BlackKing || b[A8] != BlackRook) then Err(MissingCastlePieces)
    else Ok(CastleRights(false, None, None, 'K' in s, 'Q' in s, 'k' in s, 'q' in s))
  }

  predicate KingsPresent(b: Board) {
    KingSquare(b, White).Some? && KingSquare(b, Black).Some?
  }

  function HomeRank(c: Color): Rank {
    if c == White then 0 else 7
  }

  function RookOf(c: Color): Piece {
    if c == White then WhiteRook else BlackRook
  }

  /** The parser's state between characters: the rights so far and the king file that every
      castling color must share. */
  datatype ParseState = ParseState(cr: CastleRights, kingFile: Option<File>)

  /** The first square holding the rook, scanning down from sq while above the king square:
      the highest such square, and none exactly when no square in between holds the rook. */
  function FirstRookDown(b: Board, rook: Piece, sq: int, king: Square): (r: Option<Square>)
    requires sq < 64
    ensures r.Some? ==> king < r.value <= sq && b[r.value] == rook
    ensures r.Some? ==> forall s: Square :: r.value < s <= sq ==> b[s] != rook
    ensures r.None? <==> forall s: Square :: king < s <= sq ==> b[s] != rook
    decreases sq - king
  {
    if sq <= king then None
    else if b[sq] == rook then Some(sq)
    else FirstRookDown(b, rook, sq - 1, king)
  }

  /** The first square holding the rook, scanning up from sq while below the king square:
      the lowest such square, and none exactly when no square in between holds the rook. */
  function FirstRookUp(b: Board, rook: Piece, sq: int, king: Square): (r: Option<Square>)
    requires 0 <= sq
    ensures r.Some? ==> sq <= r.value < king && b[r.value] == rook
    ensures r.Some? ==> forall s: Square :: sq <= s < r.value ==> b[s] != rook
    ensures r.None? <==> forall s: Square :: sq <= s < king ==> b[s] != rook
    decreases king - sq
  {
    if sq >= king then None
    else if b[sq] == rook then Some(sq)
    else FirstRookUp(b, rook, sq + 1, king)
  }

  /** The recorded rook file of a side. */
  function SideFile(cr: CastleRights, side: Side): Option<File> {
    if side == KingSide then cr.hSideRookStartingFile else cr.aSideRookStartingFile
  }

  /** The rights with color c's right on the given side held and that side's rook file set to
      f; everything else is kept. */
  function WithRight(cr: CastleRights, c: Color, side: Side, f: File): (r: CastleRights)
    requires c == White || c == Black
    requires side == KingSide || side == QueenSide
    ensures SideFile(r, side) == Some(f)
    ensures side == KingSide ==> r.aSideRookStartingFile == cr.aSideRookStartingFile
    ensures side == QueenSide ==> r.hSideRookStartingFile == cr.hSideRookStartingFile
    ensures r.nineSixtyMode == cr.nineSixtyMode
    ensures r.whiteKingSideCastle == (cr.whiteKingSideCastle || (c == White && side == KingSide))
    ensures r.whiteQueenSideCastle == (cr.whiteQueenSideCastle || (c == White && side == QueenSide))
    ensures r.blackKingSideCastle == (cr.blackKingSideCastle || (c == Black && side == KingSide))
    ensures r.blackQueenSideCastle == (cr.blackQueenSideCastle || (c == Black && side == QueenSide))
  {
    var cr1 := if side == KingSide then cr.(hSideRookStartingFile := Some(f)) else cr.(aSideRookStartingFile := Some(f));
    if c == White && side == KingSide then cr1.(whiteKingSideCastle := true)
    else if c == White then cr1.(whiteQueenSideCastle := true)
    else if side == KingSide then cr1.(blackKingSideCastle := true)
    else cr1.(blackQueenSideCastle := true)
  }

  /** Records a right with its rook file, unless the side already has a different file. */
  function Claim(st: ParseState, c: Color, side: Side, f: File): Result<ParseState, FenError>
    requires c == White || c == Black
    requires side == KingSide || side == QueenSide
  {
    var cur := SideFile(st.cr, side);
    if cur.Some? && cur.value != f then Err(RookFileConflict)
    else Ok(st.(cr := WithRight(st.cr, c, side, f)))
  }

  /** No rook of color c stands on c's home rank on a file above f. */
  predicate NoRookAbove(b: Board, c: Color, f: File) {
    forall g: File :: g > f ==> b[NewSquare(g, HomeRank(c))] != RookOf(c)
  }

  /** No rook of color c stands on c's home rank on a file below f. */
  predicate NoRookBelow(b: Board, c: Color, f: File) {
    forall g: File :: g < f ==> b[NewSquare(g, HomeRank(c))] != RookOf(c)
  }

  /** No rook of color c stands on c's home rank on the given side of the king k. */
  predicate NoRookOnSide(b: Board, c: Color, k: Square, side: Side) {
    if side == KingSide then NoRookAbove(b, c, FileOf(k)) else NoRookBelow(b, c, FileOf(k))
  }

  /** File f holds the outermost rook of color c on the given side of the king k: it backs a
      right on that side and no rook of c stands further out on the home rank. */
  predicate OutermostRook(b: Board, c: Color, k: Square, f: File, side: Side) {
    && RookBacks(b, c, k, Some(f), side)
    && if side == KingSide then NoRookAbove(b, c, f) else NoRookBelow(b, c, f)
  }

  /** The downward scan from the H-file corner of the king's rank finds the outermost rook
      right of the king, and finds nothing exactly when there is no rook right of the king. */
  lemma ScanDownRank(b: Board, c: Color, k: Square)
    requires RankOf(k) == HomeRank(c)
    ensures var r := FirstRookDown(b, RookOf(c), NewSquare(7, HomeRank(c)), k);
      && (r.Some? ==> FileOf(r.value) > FileOf(k) && NewSquare(FileOf(r.value), HomeRank(c)) == r.value)
      && (r.Some? ==> NoRookAbove(b, c, FileOf(r.value)))
      && (r.None? <==> NoRookAbove(b, c, FileOf(k)))
  {
    var r := FirstRookDown(b, RookOf(c), NewSquare(7, HomeRank(c)), k);
    if r.Some? {
      ScanDownFound(b, c, k, r.value);
      assert b[NewSquare(FileOf(r.value), HomeRank(c))] == RookOf(c);
    } else {
      ScanDownEmpty(b, c, k);
    }
  }

  /** No rook between the king and the corner means no rook right of the king. */
  lemma ScanDownEmpty(b: Board, c: Color, k: Square)
    requires RankOf(k) == HomeRank(c)
    requires forall s: Square :: k < s <= NewSquare(7, HomeRank(c)) ==> b[s] != RookOf(c)
    ensures NoRookAbove(b, c, FileOf(k))
  {
    forall g: File | g > FileOf(k) ensures b[NewSquare(g, HomeRank(c))] != RookOf(c) {
      assert k < NewSquare(g, HomeRank(c)) <= NewSquare(7, HomeRank(c));
    }
  }

  /** A rook found right of the king with no rook between it and the corner is the outermost
      one. */
  lemma ScanDownFound(b: Board, c: Color, k: Square, sq: Square)
    requires RankOf(k) == HomeRank(c) && k < sq <= NewSquare(7, HomeRank(c))
    requires forall s: Square :: sq < s <= NewSquare(7, HomeRank(c)) ==> b[s] != RookOf(c)
    ensures RankOf(sq) == HomeRank(c) && FileOf(sq) > FileOf(k) && NewSquare(FileOf(sq), HomeRank(c)) == sq
    ensures NoRookAbove(b, c, FileOf(sq))
  {
    SameRankAbove(k, sq, HomeRank(c));
    forall g: File | g > FileOf(sq) ensures b[NewSquare(g, HomeRank(c))] != RookOf(c) {
      assert sq < NewSquare(g, HomeRank(c)) <= NewSquare(7, HomeRank(c));
    }
  }

  /** The upward scan from the A-file corner of the king's rank finds the outermost rook left
      of the king, and finds nothing exactly when there is no rook left of the king. */
  lemma ScanUpRank(b: Board, c: Color, k: Square)
    requires RankOf(k) == HomeRank(c)
    ensures var r := FirstRookUp(b, RookOf(c), NewSquare(0, HomeRank(c)), k);
      && (r.Some? ==> FileOf(r.value) < FileOf(k) && NewSquare(FileOf(r.value), HomeRank(c)) == r.value)
      && (r.Some? ==> NoRookBelow(b, c, FileOf(r.value)))
      && (r.None? <==> NoRookBelow(b, c, FileOf(k)))
  {
    var r := FirstRookUp(b, RookOf(c), NewSquare(0, HomeRank(c)), k);
    if r.Some? {
      ScanUpFound(b, c, k, r.value);
      assert b[NewSquare(FileOf(r.value), HomeRank(c))] == RookOf(c);
    } else {
      ScanUpEmpty(b, c, k);
    }
  }

  /** No rook between the corner and the king means no rook left of the king. */
  lemma ScanUpEmpty(b: Board, c: Color, k: Square)
    requires RankOf(k) == HomeRank(c)
    requires forall s: Square :: NewSquare(0, HomeRank(c)) <= s < k ==> b[s] != RookOf(c)
    ensures NoRookBelow(b, c, FileOf(k))
  {
    forall g: File | g < FileOf(k) ensures b[NewSquare(g, HomeRank(c))] != RookOf(c) {
      assert NewSquare(0, HomeRank(c)) <= NewSquare(g, HomeRank(c)) < k;
    }
  }

  /** A rook found left of the king with no rook between the corner and it is the outermost
      one. */
  lemma ScanUpFound(b: Board, c: Color, k: Square, sq: Square)
    requires RankOf(k) == HomeRank(c) && NewSquare(0, HomeRank(c)) <= sq < k
    requires forall s: Square :: NewSquare(0, HomeRank(c)) <= s < sq ==> b[s] != RookOf(c)
    ensures RankOf(sq) == HomeRank(c) && FileOf(sq) < FileOf(k) && NewSquare(FileOf(sq), HomeRank(c)) == sq
    ensures NoRookBelow(b, c, FileOf(sq))
  {
    SameRankBelow(k, sq, HomeRank(c));
    forall g: File | g < FileOf(sq) ensures b[NewSquare(g, HomeRank(c))] != RookOf(c) {
      assert NewSquare(0, HomeRank(c)) <= NewSquare(g, HomeRank(c)) < sq;
    }
  }

  /** The file of the rook a K or k letter names: the first rook of color c scanning down
      from the H-file corner towards the king. Such a rook backs a king-side right. */
  function KingRookFile(b: Board, c: Color, k: Square): (f: Option<File>)
    requires RankOf(k) == HomeRank(c) && 0 < FileOf(k) < 7
    ensures f.Some? ==> RookBacks(b, c, k, f, KingSide)
  {
    var sq := FirstRookDown(b, RookOf(c), NewSquare(7, HomeRank(c)), k);
    if sq.None? then None
    else
      SameRankAbove(k, sq.value, HomeRank(c));
      Some(FileOf(sq.value))
  }

  /** The file of the rook a Q or q letter names: the first rook of color c scanning up from
      the A-file corner towards the king. Such a rook backs a queen-side right. */
  function QueenRookFile(b: Board, c: Color, k: Square): (f: Option<File>)
    requires RankOf(k) == HomeRank(c) && 0 < FileOf(k) < 7
    ensures f.Some? ==> RookBacks(b, c, k, f, QueenSide)
  {
    var sq := FirstRookUp(b, RookOf(c), NewSquare(0, HomeRank(c)), k);
    if sq.None? then None
    else
      SameRankBelow(k, sq.value, HomeRank(c));
      Some(FileOf(sq.value))
  }

  /** The K or k letter takes the outermost rook of its color right of the king, and finds
      none exactly when no such rook stands right of the king. */
  lemma KingRookFileOutermost(b: Board, c: Color, k: Square)
    requires RankOf(k) == HomeRank(c) && 0 < FileOf(k) < 7
    ensures KingRookFile(b, c, k).Some? ==> OutermostRook(b, c, k, KingRookFile(b, c, k).value, KingSide)
    ensures KingRookFile(b, c, k).None? <==> NoRookOnSide(b, c, k, KingSide)
  {
    var r := FirstRookDown(b, RookOf(c), NewSquare(7, HomeRank(c)), k);
    assert KingRookFile(b, c, k) == if r.None? then None else Some(FileOf(r.value));
    ScanDownRank(b, c, k);
  }

  /** The Q or q letter takes the outermost rook of its color left of the king, and finds
      none exactly when no such rook stands left of the king. */
  lemma QueenRookFileOutermost(b: Board, c: Color, k: Square)
    requires RankOf(k) == HomeRank(c) && 0 < FileOf(k) < 7
    ensures QueenRookFile(b, c, k).Some? ==> OutermostRook(b, c, k, QueenRookFile(b, c, k).value, QueenSide)
    ensures QueenRookFile(b, c, k).None? <==> NoRookOnSide(b, c, k, QueenSide)
  {
    var r := FirstRookUp(b, RookOf(c), NewSquare(0, HomeRank(c)), k);
    assert QueenRookFile(b, c, k) == if r.None? then None else Some(FileOf(r.value));
    ScanUpRank(b, c, k);
  }

  /** An X-FEN K or Q letter: the right must not be given yet and the scan must find a rook. */
  function RookLetter(st: ParseState, c: Color, side: Side, rookFile: Option<File>, kingFile: File): Result<ParseState, FenError>
    requires c == White || c == Black
    requires side == KingSide || side == QueenSide
  {
    if CanCastle(st.cr, c, side) then Err(RightGivenTwice)
    else
      match rookFile
      case None => Err(NoRookFound)
      case Some(f) => Claim(st.(kingFile := Some(kingFile)), c, side, f)
  }

  /** A Shredder-FEN file letter: a file right of the king is the king side, left of it the
      queen side, and that file must hold the color's rook on its home rank. */
  function ShredderFileLetter(st: ParseState, c: Color, f: File, b: Board, kingFile: File): Result<ParseState, FenError>
    requires c == White || c == Black
  {
    var st1 := st.(kingFile := Some(kingFile));
    if f > kingFile then
      if CanCastle(st.cr, c, KingSide) then Err(RightGivenTwice)
      else if b[NewSquare(f, HomeRank(c))] != RookOf(c) then Err(NoRookFound)
      else Claim(st1, c, KingSide, f)
    else if f < kingFile then
      if CanCastle(st.cr, c, QueenSide) then Err(RightGivenTwice)
      else if b[NewSquare(f, HomeRank(c))] != RookOf(c) then Err(NoRookFound)
      else Claim(st1, c, QueenSide, f)
    else Err(RookOnKing)
  }

  /** One Chess960 castling character of color c (upper-case for White, lower-case for Black)
      with that color's king on square k. */
  function ColorStep(st: ParseState, c: Color, ch: char, b: Board, k: Square): Result<ParseState, FenError>
    requires c == White || c == Black
  {
    var home := HomeRank(c);
    var kingLetter := if c == White then 'K' else 'k';
    var queenLetter := if c == White then 'Q' else 'q';
    var fileA := if c == White then 'A' else 'a';
    if RankOf(k) != home then Err(KingNotOnHomeRank)
    else if FileOf(k) == 0 || FileOf(k) == 7 then Err(KingOnCornerFile)
    else if st.kingFile.Some? && st.kingFile.value != FileOf(k) then Err(KingsOnDifferentFiles)
    else
      if ch == kingLetter then
        RookLetter(st, c, KingSide, KingRookFile(b, c, k), FileOf(k))
      else if ch == queenLetter then
        RookLetter(st, c, QueenSide, QueenRookFile(b, c, k), FileOf(k))
      else if fileA <= ch <= fileA + 7 as char then
        ShredderFileLetter(st, c, ch as int - fileA as int, b, FileOf(k))
      else Err(UnknownCastleChar)
  }

  predicate IsUpper(c: char) {
    'A' <= c <= 'Z'
  }

  predicate IsLower(c: char) {
    'a' <= c <= 'z'
  }

  /** One Chess960 castling character: upper-case letters speak for White, lower-case for Black. */
  function CastleStep(st: ParseState, ch: char, b: Board, wk: Square, bk: Square): Result<ParseState, FenError> {
    if IsUpper(ch) then ColorStep(st, White, ch, b, wk)
    else if IsLower(ch) then ColorStep(st, Black, ch, b, bk)
    else Err(UnknownCastleChar)
  }

  /** The Chess960 loop from character i on, stopping at the first error. */
  function CastleFold(s: string, i: nat, st: ParseState, b: Board, wk: Square, bk: Square): Result<ParseState, FenError>
    requires i <= |s|
    decreases |s| - i
  {
    if i == |s| then Ok(st)
    else
      var next :- CastleStep(st, s[i], b, wk, bk);
      CastleFold(s, i + 1, next, b, wk, bk)
  }

  /** The Chess960 rules, starting from no rights and no king file. */
  function NineSixtyCastle(s: string, b: Board): Result<CastleRights, FenError>
    requires KingsPresent(b)
  {
    var st :- CastleFold(s, 0, ParseState(NoRights(true), None), b, KingSquare(b, White).value, KingSquare(b, Black).value);
    Ok(st.cr)
  }

  /** formCastleRights: "-" is no rights; otherwise one to four bytes, no repeated character,
      then the rules of the mode. */
  function FormCastleRightsSpec(s: string, nineSixty: bool, b: Board): Result<CastleRights, FenError>
    requires nineSixty ==> KingsPresent(b)
  {
    if s == "-" then Ok(NoRights(nineSixty))
    else if Utf8Len(s) < 1 || Utf8Len(s) > 4 then Err(BadCastleLength)
    else if HasDuplicates(s) then Err(DuplicateCastle)
    else if !nineSixty then NormalCastle(s, b)
    else NineSixtyCastle(s, b)
  }

  /** The downward rook scan of the 'K' and 'k' letters. */
  method FindRookDown(b: Board, rook: Piece, from: Square, king: Square) returns (found: Option<Square>)
    ensures found == FirstRookDown(b, rook, from, king)
  {
    var sq := from;
    while sq > king
      invariant sq <= from
      invariant FirstRookDown(b, rook, from, king) == FirstRookDown(b, rook, sq, king)
    {
      if b[sq] == rook {
        return Some(sq);
      }
      sq := sq - 1;
    }
    return None;
  }

  /** The upward rook scan of the 'Q' and 'q' letters. */
  method FindRookUp(b: Board, rook: Piece, from: Square, king: Square) returns (found: Option<Square>)
    ensures found == FirstRookUp(b, rook, from, king)
  {
    var sq := from;
    while sq < king
      invariant from <= sq
      invariant FirstRookUp(b, rook, from, king) == FirstRookUp(b, rook, sq, king)
    {
      if b[sq] == rook {
        return Some(sq);
      }
      sq := sq + 1;
    }
    return None;
  }

  /** The body of the Chess960 loop for one character, as written. */
  method CastleCharStep(st: ParseState, ch: char, b: Board, wk: Square, bk: Square) returns (r: Result<ParseState, FenError>)
    ensures r == CastleStep(st, ch, b, wk, bk)
  {
    if IsUpper(ch) {
      r := ColorCharStep(st, White, ch, b, wk);
    } else if IsLower(ch) {
      r := ColorCharStep(st, Black, ch, b, bk);
    } else {
      r := Err(UnknownCastleChar);
    }
  }

  /** The white or the black branch of the loop body. */
  method ColorCharStep(st: ParseState, c: Color, ch: char, b: Board, k: Square) returns (r: Result<ParseState, FenError>)
    requires c == White || c == Black
    ensures r == ColorStep(st, c, ch, b, k)
  {
    if RankOf(k) != HomeRank(c) {
      return Err(KingNotOnHomeRank);
    }
    if FileOf(k) == 0 || FileOf(k) == 7 {
      return Err(KingOnCornerFile);
    }
    if st.kingFile.Some? && st.kingFile.value != FileOf(k) {
      return Err(KingsOnDifferentFiles);
    }
    var fileA := if c == White then 'A' else 'a';
    if ch == (if c == White then 'K' else 'k') {
      var found := FindRookDown(b, RookOf(c), NewSquare(7, HomeRank(c)), k);
      r := RookCharStep(st, c, KingSide, found, FileOf(k));
    } else if ch == (if c == White then 'Q' else 'q') {
      var found := FindRookUp(b, RookOf(c), NewSquare(0, HomeRank(c)), k);
      r := RookCharStep(st, c, QueenSide, found, FileOf(k));
    } else if fileA <= ch <= fileA + 7 as char {
      r := FileCharStep(st, c, ch as int - fileA as int, b, k);
    } else {
      r := Err(UnknownCastleChar);
    }
  }

  /** A K or Q letter, upper- or lower-case, once the rook scan from the corner towards the
      king has run: the right must be new and the scan must have found a rook. */
  method RookCharStep(st: ParseState, c: Color, side: Side, found: Option<Square>, kingFile: File) returns (r: Result<ParseState, FenError>)
    requires c == White || c == Black
    requires side == KingSide || side == QueenSide
    ensures r == RookLetter(st, c, side, if found.None? then None else Some(FileOf(found.value)), kingFile)
  {
    if CanCastle(st.cr, c, side) {
      return Err(RightGivenTwice);
    }
    if found.None? {
      return Err(NoRookFound);
    }
    r := Claim(st.(kingFile := Some(kingFile)), c, side, FileOf(found.value));
  }

  /** A file letter: the side follows from where the file lies relative to the king, and the
      color's rook must stand on that file of its home rank. */
  method FileCharStep(st: ParseState, c: Color, f: File, b: Board, k: Square) returns (r: Result<ParseState, FenError>)
    requires c == White || c == Black
    ensures r == ShredderFileLetter(st, c, f, b, FileOf(k))
  {
    var st1 := st.(kingFile := Some(FileOf(k)));
    var home := HomeRank(c);
    if f > FileOf(k) {
      if CanCastle(st.cr, c, KingSide) {
        return Err(RightGivenTwice);
      }
      if b[NewSquare(f, home)] != RookOf(c) {
        return Err(NoRookFound);
      }
      r := Claim(st1, c, KingSide, f);
    } else if f < FileOf(k) {
      if CanCastle(st.cr, c, QueenSide) {
        return Err(RightGivenTwice);
      }
      if b[NewSquare(f, home)] != RookOf(c) {
        return Err(NoRookFound);
      }
      r := Claim(st1, c, QueenSide, f);
    } else {
      return Err(RookOnKing);
    }
  }

  /** formCastleRights as written: the rights start empty and each accepted letter sets one. */
  method FormCastleRights(castleStr: string, isNineSixty: bool, b: Board) returns (r: Result<CastleRights, FenError>)
    requires isNineSixty ==> KingsPresent(b)
    ensures r == FormCastleRightsSpec(castleStr, isNineSixty, b)
  {
    var cr := NoRights(isNineSixty);
    if castleStr == "-" {
      return Ok(cr);
    }
    if Utf8Len(castleStr) < 1 || Utf8Len(castleStr) > 4 {
      return Err(BadCastleLength);
    }
    var dup := HasDuplicateCharacters(castleStr);
    if dup {
      return Err(DuplicateCastle);
    }
    if !isNineSixty {
      var only := HasOnlyKQkq(castleStr);
      if !only {
        return Err(NotKQkq);
      }
      if 'K' in castleStr {
        if b[E1] != WhiteKing || b[H1] != WhiteRook {
          return Err(MissingCastlePieces);
        }
        cr := cr.(whiteKingSideCastle := true);
      }
      if 'Q' in castleStr {
        if b[E1] != WhiteKing || b[A1] != WhiteRook {
          return Err(MissingCastlePieces);
        }
        cr := cr.(whiteQueenSideCastle := true);
      }
      if 'k' in castleStr {
        if b[E8] != BlackKing || b[H8] != BlackRook {
          return Err(MissingCastlePieces);
        }
        cr := cr.(blackKingSideCastle := true);
      }
      if 'q' in castleStr {
        if b[E8] != BlackKing || b[A8] != BlackRook {
          return Err(MissingCastlePieces);
        }
        cr := cr.(blackQueenSideCastle := true);
      }
      return Ok(cr);
    }
    var wk := KingSquare(b, White).value;
    var bk := KingSquare(b, Black).value;
    var st := ParseState(cr, None);
    var i := 0;
    while i < |castleStr|
      invariant 0 <= i <= |castleStr|
      invariant CastleFold(castleStr, 0, ParseState(cr, None), b, wk, bk) == CastleFold(castleStr, i, st, b, wk, bk)
    {
      var next := CastleCharStep(st, castleStr[i], b, wk, bk);
      if next.Err? {
        return Err(next.error);
      }
      st := next.value;
      i := i + 1;
    }
    return Ok(st.cr);
  }

  predicate WhiteAny(cr: CastleRights) {
    cr.whiteKingSideCastle || cr.whiteQueenSideCastle
  }

  predicate BlackAny(cr: CastleRights) {
    cr.blackKingSideCastle || cr.blackQueenSideCastle
  }

  /** A Chess960 right of color c is backed when the king k stands on the home rank off the
      corner files and the recorded rook file holds that color's rook on the right side of it. */
  predicate RookBacks(b: Board, c: Color, k: Square, f: Option<File>, side: Side) {
    && f.Some?
    && RankOf(k) == HomeRank(c)
    && 0 < FileOf(k) < 7
    && (if side == KingSide then f.value > FileOf(k) else f.value < FileOf(k))
    && b[NewSquare(f.value, HomeRank(c))] == RookOf(c)
  }

  /** What a decoded set of Chess960 rights guarantees about the board: every right is backed
      by its rook, and when both colors may castle their kings share a file. */
  predicate Sound960(cr: CastleRights, b: Board, wk: Square, bk: Square) {
    && (cr.whiteKingSideCastle ==> RookBacks(b, White, wk, cr.hSideRookStartingFile, KingSide))
    && (cr.whiteQueenSideCastle ==> RookBacks(b, White, wk, cr.aSideRookStartingFile, QueenSide))
    && (cr.blackKingSideCastle ==> RookBacks(b, Black, bk, cr.hSideRookStartingFile, KingSide))
    && (cr.blackQueenSideCastle ==> RookBacks(b, Black, bk, cr.aSideRookStartingFile, QueenSide))
    && (WhiteAny(cr) && BlackAny(cr) ==> FileOf(wk) == FileOf(bk))
  }

  /** The invariant of the Chess960 loop. */
  predicate StateInv(st: ParseState, b: Board, wk: Square, bk: Square) {
    && st.cr.nineSixtyMode
    && Sound960(st.cr, b, wk, bk)
    && (WhiteAny(st.cr) ==> st.kingFile == Some(FileOf(wk)))
    && (BlackAny(st.cr) ==> st.kingFile == Some(FileOf(bk)))
  }

  /** Claiming a backed right, with the king file set to that color's king, keeps the loop
      invariant. */
  lemma ClaimSound(st: ParseState, c: Color, side: Side, f: File, b: Board, wk: Square, bk: Square, k: Square)
    requires c == White || c == Black
    requires side == KingSide || side == QueenSide
    requires k == if c == White then wk else bk
    requires StateInv(st, b, wk, bk)
    requires st.kingFile.Some? ==> st.kingFile.value == FileOf(k)
    requires RookBacks(b, c, k, Some(f), side)
    requires Claim(st.(kingFile := Some(FileOf(k))), c, side, f).Ok?
    ensures StateInv(Claim(st.(kingFile := Some(FileOf(k))), c, side, f).value, b, wk, bk)
  {
  }

  /** A square above the king and at most the H-file corner of the king's rank is on that rank,
      to the king's right. */
  lemma SameRankAbove(k: Square, sq: Square, home: Rank)
    requires RankOf(k) == home && k < sq <= NewSquare(7, home)
    ensures RankOf(sq) == home && FileOf(sq) > FileOf(k) && NewSquare(FileOf(sq), home) == sq
  {
  }

  lemma SameRankBelow(k: Square, sq: Square, home: Rank)
    requires RankOf(k) == home && NewSquare(0, home) <= sq < k
    ensures RankOf(sq) == home && FileOf(sq) < FileOf(k) && NewSquare(FileOf(sq), home) == sq
  {
  }

  /** One accepted character keeps the loop invariant. */
  lemma ColorStepSound(st: ParseState, c: Color, ch: char, b: Board, wk: Square, bk: Square)
    requires c == White || c == Black
    requires StateInv(st, b, wk, bk)
    requires ColorStep(st, c, ch, b, if c == White then wk else bk).Ok?
    ensures StateInv(ColorStep(st, c, ch, b, if c == White then wk else bk).value, b, wk, bk)
  {
    if c == White {
      WhiteStepSound(st, ch, b, wk, bk);
    } else {
      BlackStepSound(st, ch, b, wk, bk);
    }
  }

  lemma WhiteStepSound(st: ParseState, ch: char, b: Board, wk: Square, bk: Square)
    requires StateInv(st, b, wk, bk)
    requires ColorStep(st, White, ch, b, wk).Ok?
    ensures StateInv(ColorStep(st, White, ch, b, wk).value, b, wk, bk)
  {
    assert RankOf(wk) == HomeRank(White) && 0 < FileOf(wk) < 7;
    if ch == 'K' {
      RookLetterSound(st, White, KingSide, b, wk, bk, wk, KingRookFile(b, White, wk));
    } else if ch == 'Q' {
      RookLetterSound(st, White, QueenSide, b, wk, bk, wk, QueenRookFile(b, White, wk));
    } else {
      ShredderFileLetterSound(st, White, ch as int - 'A' as int, b, wk, bk, wk);
    }
  }

  lemma BlackStepSound(st: ParseState, ch: char, b: Board, wk: Square, bk: Square)
    requires StateInv(st, b, wk, bk)
    requires ColorStep(st, Black, ch, b, bk).Ok?
    ensures StateInv(ColorStep(st, Black, ch, b, bk).value, b, wk, bk)
  {
    assert RankOf(bk) == HomeRank(Black) && 0 < FileOf(bk) < 7;
    assert 56 <= bk && FileOf(bk) == bk - 56;
    if ch == 'k' {
      RookLetterSound(st, Black, KingSide, b, wk, bk, bk, KingRookFile(b, Black, bk));
    } else if ch == 'q' {
      RookLetterSound(st, Black, QueenSide, b, wk, bk, bk, QueenRookFile(b, Black, bk));
    } else {
      ShredderFileLetterSound(st, Black, ch as int - 'a' as int, b, wk, bk, bk);
    }
  }

  /** An accepted X-FEN K or Q letter keeps the loop invariant. */
  lemma RookLetterSound(st: ParseState, c: Color, side: Side, b: Board, wk: Square, bk: Square, k: Square, rookFile: Option<File>)
    requires c == White || c == Black
    requires side == KingSide || side == QueenSide
    requires k == if c == White then wk else bk
    requires StateInv(st, b, wk, bk)
    requires st.kingFile.Some? ==> st.kingFile.value == FileOf(k)
    requires rookFile.Some? ==> RookBacks(b, c, k, rookFile, side)
    requires RookLetter(st, c, side, rookFile, FileOf(k)).Ok?
    ensures StateInv(RookLetter(st, c, side, rookFile, FileOf(k)).value, b, wk, bk)
  {
    ClaimSound(st, c, side, rookFile.value, b, wk, bk, k);
  }

  /** An accepted Shredder-FEN file letter keeps the loop invariant. */
  lemma ShredderFileLetterSound(st: ParseState, c: Color, f: File, b: Board, wk: Square, bk: Square, k: Square)
    requires c == White || c == Black
    requires k == if c == White then wk else bk
    requires StateInv(st, b, wk, bk)
    requires RankOf(k) == HomeRank(c) && 0 < FileOf(k) < 7
    requires st.kingFile.Some? ==> st.kingFile.value == FileOf(k)
    requires ShredderFileLetter(st, c, f, b, FileOf(k)).Ok?
    ensures StateInv(ShredderFileLetter(st, c, f, b, FileOf(k)).value, b, wk, bk)
  {
    if f > FileOf(k) {
      ClaimSound(st, c, KingSide, f, b, wk, bk, k);
    } else {
      ClaimSound(st, c, QueenSide, f, b, wk, bk, k);
    }
  }

  lemma CastleStepSound(st: ParseState, ch: char, b: Board, wk: Square, bk: Square)
    requires StateInv(st, b, wk, bk)
    requires CastleStep(st, ch, b, wk, bk).Ok?
    ensures StateInv(CastleStep(st, ch, b, wk, bk).value, b, wk, bk)
  {
    if IsUpper(ch) {
      ColorStepSound(st, White, ch, b, wk, bk);
    } else {
      ColorStepSound(st, Black, ch, b, wk, bk);
    }
  }

  lemma {:induction false} CastleFoldSound(s: string, i: nat, st: ParseState, b: Board, wk: Square, bk: Square)
    requires i <= |s|
    requires StateInv(st, b, wk, bk)
    requires CastleFold(s, i, st, b, wk, bk).Ok?
    ensures StateInv(CastleFold(s, i, st, b, wk, bk).value, b, wk, bk)
    decreases |s| - i
  {
    if i < |s| {
      CastleStepSound(st, s[i], b, wk, bk);
      CastleFoldSound(s, i + 1, CastleStep(st, s[i], b, wk, bk).value, b, wk, bk);
    }
  }

  /** Chess960 rights decoded from any castling field are backed by the board: each right's
      rook stands on its recorded file on the home rank, on the correct side of a king that is
      on the home rank and off the corner files, and both kings share a file when both colors
      may castle. */
  lemma {:induction false} NineSixtyRightsSound(s: string, b: Board)
    requires KingsPresent(b)
    requires FormCastleRightsSpec(s, true, b).Ok?
    ensures FormCastleRightsSpec(s, true, b).value.nineSixtyMode
    ensures Sound960(FormCastleRightsSpec(s, true, b).value, b, KingSquare(b, White).value, KingSquare(b, Black).value)
  {
    if s != "-" {
      var wk := KingSquare(b, White).value;
      var bk := KingSquare(b, Black).value;
      CastleFoldSound(s, 0, ParseState(NoRights(true), None), b, wk, bk);
    }
  }

  /** Normal rights are backed when each right has its king on E1/E8 and its rook in the
      corner. */
  predicate NormalBacked(cr: CastleRights, b: Board) {
    && (cr.whiteKingSideCastle ==> b[E1] == WhiteKing && b[H1] == WhiteRook)
    && (cr.whiteQueenSideCastle ==> b[E1] == WhiteKing && b[A1] == WhiteRook)
    && (cr.blackKingSideCastle ==> b[E8] == BlackKing && b[H8] == BlackRook)
    && (cr.blackQueenSideCastle ==> b[E8] == BlackKing && b[A8] == BlackRook)
  }

  /** In normal mode a castling field decodes exactly when it is "-", or one to four distinct
      letters among K, Q, k, q whose kings and rooks are in place; each right is then present
      exactly when its letter is. */
  lemma {:induction false} NormalRightsDecode(s: string, b: Board)
    ensures FormCastleRightsSpec(s, false, b).Ok? <==>
      s == "-" || (1 <= |s| <= 4 && !HasDuplicates(s) && OnlyKQkq(s) &&
        NormalBacked(CastleRights(false, None, None, 'K' in s, 'Q' in s, 'k' in s, 'q' in s), b))
    ensures FormCastleRightsSpec(s, false, b).Ok? ==>
      var cr := FormCastleRightsSpec(s, false, b).value;
      && !cr.nineSixtyMode && cr.aSideRookStartingFile.None? && cr.hSideRookStartingFile.None?
      && NormalBacked(cr, b)
      && (s != "-" ==>
            cr.whiteKingSideCastle == ('K' in s) && cr.whiteQueenSideCastle == ('Q' in s) &&
            cr.blackKingSideCastle == ('k' in s) && cr.blackQueenSideCastle == ('q' in s))
  {
    if OnlyKQkq(s) {
      assert forall i :: 0 <= i < |s| ==> s[i] as int < 0x80;
    }
  }

  lemma {:induction false} OrderBound(s: string, i: nat)
    requires InFenOrder(s) && i < |s|
    ensures FenOrder(s[i]) >= i
  {
    if i > 0 {
      OrderBound(s, i - 1);
    }
  }

  /** Letters in FEN order are castling letters, distinct, at most four, and one byte each. */
  lemma InFenOrderFacts(s: string)
    requires InFenOrder(s)
    ensures OnlyKQkq(s) && !HasDuplicates(s) && |s| <= 4 && Utf8Len(s) == |s|
  {
    if |s| > 4 {
      OrderBound(s, 4);
      assert false;
    }
    assert forall i :: 0 <= i < |s| ==> s[i] as int < 0x80;
  }

  /** The normal-mode castling field written by CastleRights.String decodes back to the same
      rights whenever the kings and rooks those rights need are in place. */
  lemma {:induction false} NormalRightsRoundTrip(cr: CastleRights, b: Board)
    requires !cr.nineSixtyMode && cr.aSideRookStartingFile.None? && cr.hSideRookStartingFile.None?
    requires NormalBacked(cr, b)
    ensures FormCastleRightsSpec(RightsString(cr), false, b) == Ok(cr)
  {
    NormalRightsOrder(cr);
    if HasAnyRight(cr) {
      NormalRightsLetters(cr);
      InFenOrderFacts(RightsString(cr));
    }
  }
}
