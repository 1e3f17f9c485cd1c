/** Castling rights of both colors (position.go): the four flags, the Chess960 mode flag and
    the starting files of the a-side and h-side rooks. */
module Castling {
  import opened Wrappers
  import opened Chess

  /** Side is an integer type in the library; only its two named values select a right. */
  type Side = int
  const KingSide: Side := 1
  const QueenSide: Side := 2

  /** A rook starting file is either unknown (the empty string) or a lower-case file letter,
      so it is kept as an optional file. */
  datatype CastleRights = CastleRights(
    nineSixtyMode: bool,
    aSideRookStartingFile: Option<File>,
    hSideRookStartingFile: Option<File>,
    whiteKingSideCastle: bool,
    whiteQueenSideCastle: bool,
    blackKingSideCastle: bool,
    blackQueenSideCastle: bool)

  /** No rights at all, in the given mode and with no known rook files. */
  function NoRights(nineSixty: bool): CastleRights {
    CastleRights(nineSixty, None, None, false, false, false, false)
  }

  /** The stored flag of a color and side; false for every other color or side value. */
  function CanCastle(cr: CastleRights, c: Color, side: Side): (r: bool)
    ensures r ==> (c == White || c == Black) && (side == KingSide || side == QueenSide)
    ensures c == White && side == KingSide ==> r == cr.whiteKingSideCastle
    ensures c == White && side == QueenSide ==> r == cr.whiteQueenSideCastle
    ensures c == Black && side == KingSide ==> r == cr.blackKingSideCastle
    ensures c == Black && side == QueenSide ==> r == cr.blackQueenSideCastle
  {
    if c == White then
      if side == KingSide then cr.whiteKingSideCastle
      else if side == QueenSide then cr.whiteQueenSideCastle
      else false
    else if c == Black then
      if side == KingSide then cr.blackKingSideCastle
      else if side == QueenSide then cr.blackQueenSideCastle
      else false
    else false
  }

  predicate HasAnyRight(cr: CastleRights) {
    cr.whiteKingSideCastle || cr.whiteQueenSideCastle || cr.blackKingSideCastle || cr.blackQueenSideCastle
  }

  /** strings.ToUpper / strings.ToLower of an optional file letter ("" when unknown). */
  function UpperFile(f: Option<File>): string {
    if f.Some? then [('A' as int + f.value) as char] else ""
  }

  function LowerFile(f: Option<File>): string {
    if f.Some? then FileName(f.value) else ""
  }

  /** The letters of the rights present, before the empty result is replaced by "-". */
  function RightsLetters(cr: CastleRights): string {
    if cr.nineSixtyMode then
      (if cr.whiteKingSideCastle then UpperFile(cr.hSideRookStartingFile) else "") +
      (if cr.whiteQueenSideCastle then UpperFile(cr.aSideRookStartingFile) else "") +
      (if cr.blackKingSideCastle then LowerFile(cr.hSideRookStartingFile) else "") +
      (if cr.blackQueenSideCastle then LowerFile(cr.aSideRookStartingFile) else "")
    else
      (if cr.whiteKingSideCastle then "K" else "") +
      (if cr.whiteQueenSideCastle then "Q" else "") +
      (if cr.blackKingSideCastle then "k" else "") +
      (if cr.blackQueenSideCastle then "q" else "")
  }

  /** CastleRights.String: FEN letters in normal mode, Shredder-FEN file letters in
      Chess960 mode, "-" when nothing is written. */
  function RightsString(cr: CastleRights): string {
    var rights := RightsLetters(cr);
    if rights == "" then "-" else rights
  }

  /** The place of a letter in the fixed FEN order K, Q, k, q; 4 for any other character. */
  function FenOrder(c: char): int {
    if c == 'K' then 0 else if c == 'Q' then 1 else if c == 'k' then 2 else if c == 'q' then 3 else 4
  }

  /** Every character is a castling letter and the letters strictly follow the order K, Q, k, q. */
  predicate InFenOrder(s: string) {
    && (forall i :: 0 <= i < |s| ==> FenOrder(s[i]) < 4)
    && (forall i, j :: 0 <= i < j < |s| ==> FenOrder(s[i]) < FenOrder(s[j]))
  }

  lemma AppendInFenOrder(x: string, y: string, k: int, hi: int)
    requires InFenOrder(x) && InFenOrder(y)
    requires forall i :: 0 <= i < |x| ==> FenOrder(x[i]) < k
    requires forall j :: 0 <= j < |y| ==> k <= FenOrder(y[j]) < hi
    requires k <= hi
    ensures InFenOrder(x + y)
    ensures forall i :: 0 <= i < |x + y| ==> FenOrder((x + y)[i]) < hi
  {
    var s := x + y;
    forall i | 0 <= i < |s| ensures FenOrder(s[i]) < hi {
      if i >= |x| {
        assert s[i] == y[i - |x|];
      }
    }
    forall i, j | 0 <= i < j < |s| ensures FenOrder(s[i]) < FenOrder(s[j]) {
      if j < |x| {
      } else if i < |x| {
        assert s[j] == y[j - |x|];
      } else {
        assert s[i] == y[i - |x|] && s[j] == y[j - |x|];
      }
    }
  }

  /** The normal-mode letters: the four optional parts, one per right, in the order K, Q, k, q. */
  lemma NormalLettersParts(cr: CastleRights) returns (a: string, b: string, c: string, d: string)
    requires !cr.nineSixtyMode
    ensures RightsLetters(cr) == a + b + c + d
    ensures a == (if cr.whiteKingSideCastle then "K" else "")
    ensures b == (if cr.whiteQueenSideCastle then "Q" else "")
    ensures c == (if cr.blackKingSideCastle then "k" else "")
    ensures d == (if cr.blackQueenSideCastle then "q" else "")
  {
    a := if cr.whiteKingSideCastle then "K" else "";
    b := if cr.whiteQueenSideCastle then "Q" else "";
    c := if cr.blackKingSideCastle then "k" else "";
    d := if cr.blackQueenSideCastle then "q" else "";
  }

  /** Optional letters K, Q, k, q, concatenated in that order, are in FEN order. */
  lemma {:induction false} PartsInFenOrder(a: string, b: string, c: string, d: string)
    requires a == "K" || a == ""
    requires b == "Q" || b == ""
    requires c == "k" || c == ""
    requires d == "q" || d == ""
    ensures InFenOrder(a + b + c + d)
  {
    AppendInFenOrder(a, b, 1, 2);
    AppendInFenOrder(a + b, c, 2, 3);
    AppendInFenOrder(a + b + c, d, 3, 4);
  }

  /** In normal mode the string is "-" exactly when no right is present, and otherwise lists
      castling letters only, each at most once, in the order K, Q, k, q. */
  lemma {:induction false} NormalRightsOrder(cr: CastleRights)
    requires !cr.nineSixtyMode
    ensures RightsString(cr) == "-" <==> !HasAnyRight(cr)
    ensures HasAnyRight(cr) ==> InFenOrder(RightsString(cr))
  {
    var a, b, c, d := NormalLettersParts(cr);
    PartsInFenOrder(a, b, c, d);
    var r := a + b + c + d;
    if HasAnyRight(cr) {
      assert |r| > 0;
      assert r != "-" by {
        assert FenOrder(r[0]) < 4;
      }
    } else {
      assert r == "";
    }
  }

  /** In normal mode, when some right is present, each letter K, Q, k, q appears in the
      string exactly when its right is present. */
  lemma {:induction false} NormalRightsLetters(cr: CastleRights)
    requires !cr.nineSixtyMode && HasAnyRight(cr)
    ensures 'K' in RightsString(cr) <==> cr.whiteKingSideCastle
    ensures 'Q' in RightsString(cr) <==> cr.whiteQueenSideCastle
    ensures 'k' in RightsString(cr) <==> cr.blackKingSideCastle
    ensures 'q' in RightsString(cr) <==> cr.blackQueenSideCastle
  {
    var a, b, c, d := NormalLettersParts(cr);
    assert RightsString(cr) == a + b + c + d;
    LetterMembership(a, b, c, d, 'K', 0);
    LetterMembership(a, b, c, d, 'Q', 1);
    LetterMembership(a, b, c, d, 'k', 2);
    LetterMembership(a, b, c, d, 'q', 3);
  }

  /** A letter of order k occurs in a + b + c + d exactly when it occurs in the k-th part,
      provided each part holds only letters of its own order. */
  lemma LetterMembership(a: string, b: string, c: string, d: string, x: char, k: int)
    requires 0 <= k < 4 && FenOrder(x) == k
    requires forall i :: 0 <= i < |a| ==> FenOrder(a[i]) == 0
    requires forall i :: 0 <= i < |b| ==> FenOrder(b[i]) == 1
    requires forall i :: 0 <= i < |c| ==> FenOrder(c[i]) == 2
    requires forall i :: 0 <= i < |d| ==> FenOrder(d[i]) == 3
    ensures x in a + b + c + d <==> x in [a, b, c, d][k]
  {
    var parts := [a, b, c, d];
    if x in a + b + c + d {
      var i :| 0 <= i < |a + b + c + d| && (a + b + c + d)[i] == x;
      if i < |a| {
        assert a[i] == x;
      } else if i < |a + b| {
        assert b[i - |a|] == x;
      } else if i < |a + b + c| {
        assert c[i - |a + b|] == x;
      } else {
        assert d[i - |a + b + c|] == x;
      }
    }
    if x in parts[k] {
      var i :| 0 <= i < |parts[k]| && parts[k][i] == x;
      if k == 0 {
        assert (a + b + c + d)[i] == x;
      } else if k == 1 {
        assert (a + b + c + d)[|a| + i] == x;
      } else if k == 2 {
        assert (a + b + c + d)[|a + b| + i] == x;
      } else {
        assert (a + b + c + d)[|a + b + c| + i] == x;
      }
    }
  }

  /** In Chess960 mode the string is Shredder-FEN: for White's h-side, White's a-side,
      Black's h-side and Black's a-side right in that order, the rook file's letter when the
      right is held and its file is known (upper-case for White, lower-case for Black), and
      nothing otherwise; "-" when no letter is written. */
  lemma {:induction false} ShredderRightsString(cr: CastleRights)
    requires cr.nineSixtyMode
    ensures
      var h := cr.hSideRookStartingFile;
      var a := cr.aSideRookStartingFile;
      var wk := if cr.whiteKingSideCastle && h.Some? then [('A' as int + h.value) as char] else "";
      var wq := if cr.whiteQueenSideCastle && a.Some? then [('A' as int + a.value) as char] else "";
      var bk := if cr.blackKingSideCastle && h.Some? then [FileLetter(h.value)] else "";
      var bq := if cr.blackQueenSideCastle && a.Some? then [FileLetter(a.value)] else "";
      RightsString(cr) == if wk + wq + bk + bq == "" then "-" else wk + wq + bk + bq
    ensures !HasAnyRight(cr) ==> RightsString(cr) == "-"
    ensures '-' in RightsString(cr) <==> RightsString(cr) == "-"
  {
    var h := cr.hSideRookStartingFile;
    var a := cr.aSideRookStartingFile;
    var wk := if cr.whiteKingSideCastle && h.Some? then [('A' as int + h.value) as char] else "";
    var wq := if cr.whiteQueenSideCastle && a.Some? then [('A' as int + a.value) as char] else "";
    var bk := if cr.blackKingSideCastle && h.Some? then [FileLetter(h.value)] else "";
    var bq := if cr.blackQueenSideCastle && a.Some? then [FileLetter(a.value)] else "";
    assert RightsLetters(cr) == wk + wq + bk + bq;
    var r := wk + wq + bk + bq;
    forall i | 0 <= i < |r| ensures r[i] != '-' {
      if i < |wk| {
        assert r[i] == wk[i];
      } else if i < |wk + wq| {
        assert r[i] == wq[i - |wk|];
      } else if i < |wk + wq + bk| {
        assert r[i] == bk[i - |wk + wq|];
      } else {
        assert r[i] == bq[i - |wk + wq + bk|];
      }
    }
  }

  /** The square a right's rook starts on: H1/A1/H8/A8 in normal mode, the stored rook file
      on the first or last rank in Chess960 mode, none when that file is unknown. */
  function RookSquare(cr: CastleRights, c: Color, side: Side): Option<Square>
    requires c == White || c == Black
    requires side == KingSide || side == QueenSide
  {
    var rank := if c == White then 0 else 7;
    if cr.nineSixtyMode then
      var f := if side == KingSide then cr.hSideRookStartingFile else cr.aSideRookStartingFile;
      if f.Some? then Some(NewSquare(f.value, rank)) else None
    else
      Some(NewSquare(if side == KingSide then 7 else 0, rank))
  }

  /** Whether a move starts or ends on the given square. */
  predicate Touches(m: Move, sq: Option<Square>) {
    sq.Some? && (m.s1 == sq.value || m.s2 == sq.value)
  }

  /** Whether the move loses the given right: the color's king moves, or the move starts or
      ends on that right's rook square. */
  predicate LosesRight(cr: CastleRights, b: Board, m: Move, c: Color, side: Side)
    requires c == White || c == Black
    requires side == KingSide || side == QueenSide
  {
    b[m.s1] == KingOf(c) || Touches(m, RookSquare(cr, c, side))
  }

  /** updateCastleRights: the rights after move m on board b. A right is cleared exactly
      when the move loses it; the mode and the rook files never change. */
  function UpdateCastleRights(cr: CastleRights, b: Board, m: Move): (r: CastleRights)
    ensures r.nineSixtyMode == cr.nineSixtyMode
    ensures r.aSideRookStartingFile == cr.aSideRookStartingFile
    ensures r.hSideRookStartingFile == cr.hSideRookStartingFile
    ensures forall c: Color, side: Side | (c == White || c == Black) && (side == KingSide || side == QueenSide) ::
      CanCastle(r, c, side) <==> CanCastle(cr, c, side) && !LosesRight(cr, b, m, c, side)
  {
    cr.(whiteKingSideCastle := cr.whiteKingSideCastle && !LosesRight(cr, b, m, White, KingSide),
        whiteQueenSideCastle := cr.whiteQueenSideCastle && !LosesRight(cr, b, m, White, QueenSide),
        blackKingSideCastle := cr.blackKingSideCastle && !LosesRight(cr, b, m, Black, KingSide),
        blackQueenSideCastle := cr.blackQueenSideCastle && !LosesRight(cr, b, m, Black, QueenSide))
  }

  /** updateCastleRights as the library writes it: a copy of the rights whose flags are
      cleared one at a time, each when the king of its color moves or the move starts or ends
      on that right's rook square. */
  method ClearLostRights(cr: CastleRights, b: Board, m: Move) returns (newcr: CastleRights)
    ensures newcr == UpdateCastleRights(cr, b, m)
  {
    newcr := cr;
    var movedPiece := b[m.s1];
    var whiteRookKingSideSquare := RookSquare(cr, White, KingSide);
    var whiteRookQueenSideSquare := RookSquare(cr, White, QueenSide);
    var blackRookKingSideSquare := RookSquare(cr, Black, KingSide);
    var blackRookQueenSideSquare := RookSquare(cr, Black, QueenSide);
    if movedPiece == WhiteKing || Touches(m, whiteRookKingSideSquare) {
      newcr := newcr.(whiteKingSideCastle := false);
    }
    if movedPiece == WhiteKing || Touches(m, whiteRookQueenSideSquare) {
      newcr := newcr.(whiteQueenSideCastle := false);
    }
    if movedPiece == BlackKing || Touches(m, blackRookKingSideSquare) {
      newcr := newcr.(blackKingSideCastle := false);
    }
    if movedPiece == BlackKing || Touches(m, blackRookQueenSideSquare) {
      newcr := newcr.(blackQueenSideCastle := false);
    }
  }

  /** Rights are only ever removed: whatever the move, no right appears that was not there. */
  lemma RightsOnlyShrink(cr: CastleRights, b: Board, m: Move, c: Color, side: Side)
    ensures CanCastle(UpdateCastleRights(cr, b, m), c, side) ==> CanCastle(cr, c, side)
  {
  }

  /** A king move removes both rights of that king's color. */
  lemma KingMoveClearsBothRights(cr: CastleRights, b: Board, m: Move, c: Color)
    requires c == White || c == Black
    requires b[m.s1] == KingOf(c)
    ensures !CanCastle(UpdateCastleRights(cr, b, m), c, KingSide)
    ensures !CanCastle(UpdateCastleRights(cr, b, m), c, QueenSide)
  {
  }

  /** A move by neither king that touches no rook square keeps every right. */
  lemma QuietMoveKeepsRights(cr: CastleRights, b: Board, m: Move)
    requires b[m.s1] != WhiteKing && b[m.s1] != BlackKing
    requires forall c: Color, side: Side | (c == White || c == Black) && (side == KingSide || side == QueenSide) ::
      !Touches(m, RookSquare(cr, c, side))
    ensures UpdateCastleRights(cr, b, m) == cr
  {
    assert !Touches(m, RookSquare(cr, White, KingSide));
    assert !Touches(m, RookSquare(cr, White, QueenSide));
    assert !Touches(m, RookSquare(cr, Black, KingSide));
    assert !Touches(m, RookSquare(cr, Black, QueenSide));
  }
}
