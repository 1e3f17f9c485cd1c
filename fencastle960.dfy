/** What each Chess960 castling letter means (fen.go, formCastleRights), and the round trip
    of Chess960 rights through their Shredder-FEN string. */
module FenCastle960 {
  import opened Wrappers
  import opened Chess
  import opened Castling
  import opened Text
  import opened FenBoards
  import opened FenCastle

  /** The X-FEN letter of a right: K or Q for White, k or q for Black. */
  function RightLetter(c: Color, side: Side): char {
    if c == White then (if side == KingSide then 'K' else 'Q')
    else (if side == KingSide then 'k' else 'q')
  }

  /** The Shredder-FEN letter of a rook file: upper-case for White, lower-case for Black. */
  function RookFileChar(c: Color, f: File): (ch: char)
    ensures c == White ==> 'A' <= ch <= 'H' && ch as int - 'A' as int == f
    ensures c != White ==> 'a' <= ch <= 'h' && ch as int - 'a' as int == f
  {
    if c == White then ('A' as int + f) as char else FileLetter(f)
  }

  /** The outermost rook on a side of the king is unique. */
  lemma OutermostUnique(b: Board, c: Color, k: Square, f: File, g: File, side: Side)
    requires OutermostRook(b, c, k, f, side) && OutermostRook(b, c, k, g, side)
    ensures f == g
  {
  }

  /** An X-FEN letter K, Q, k or q, with the king of its color on the home rank off the corner
      files and on the file already fixed by the other color, if any: a right given twice is
      rejected; otherwise the letter is rejected with NoRookFound exactly when no rook of its
      color stands on that side of the king; otherwise it takes the outermost such rook, and
      it is accepted, recording that rook's file and the king's file, unless the side already
      records a different rook file. */
  lemma RookLetterRules(st: ParseState, c: Color, side: Side, b: Board, k: Square)
    requires c == White || c == Black
    requires side == KingSide || side == QueenSide
    requires RankOf(k) == HomeRank(c) && 0 < FileOf(k) < 7
    requires st.kingFile.None? || st.kingFile == Some(FileOf(k))
    ensures var r := ColorStep(st, c, RightLetter(c, side), b, k);
      && (CanCastle(st.cr, c, side) ==> r == Err(RightGivenTwice))
      && (!CanCastle(st.cr, c, side) ==> (r == Err(NoRookFound) <==> NoRookOnSide(b, c, k, side)))
      && (r.Ok? ==> SideFile(r.value.cr, side).Some? && OutermostRook(b, c, k, SideFile(r.value.cr, side).value, side))
      && (forall f: File :: !CanCastle(st.cr, c, side) && OutermostRook(b, c, k, f, side) ==>
            r == if SideFile(st.cr, side).Some? && SideFile(st.cr, side).value != f then Err(RookFileConflict)
                 else Ok(ParseState(WithRight(st.cr, c, side, f), Some(FileOf(k)))))
  {
    RookLetterDispatch(st, c, side, b, k);
    if side == KingSide {
      KingRookFileOutermost(b, c, k);
      RookLetterOutcome(st, c, side, b, k, KingRookFile(b, c, k));
    } else {
      QueenRookFileOutermost(b, c, k);
      RookLetterOutcome(st, c, side, b, k, QueenRookFile(b, c, k));
    }
  }

  /** A K, Q, k or q letter goes to the rook scan of its side. */
  lemma RookLetterDispatch(st: ParseState, c: Color, side: Side, b: Board, k: Square)
    requires c == White || c == Black
    requires side == KingSide || side == QueenSide
    requires RankOf(k) == HomeRank(c) && 0 < FileOf(k) < 7
    requires st.kingFile.None? || st.kingFile == Some(FileOf(k))
    ensures ColorStep(st, c, RightLetter(c, side), b, k) ==
      RookLetter(st, c, side, if side == KingSide then KingRookFile(b, c, k) else QueenRookFile(b, c, k), FileOf(k))
  {
  }

  lemma RookLetterOutcome(st: ParseState, c: Color, side: Side, b: Board, k: Square, rf: Option<File>)
    requires c == White || c == Black
    requires side == KingSide || side == QueenSide
    requires RankOf(k) == HomeRank(c) && 0 < FileOf(k) < 7
    requires rf.Some? ==> OutermostRook(b, c, k, rf.value, side)
    requires rf.None? <==> NoRookOnSide(b, c, k, side)
    ensures var r := RookLetter(st, c, side, rf, FileOf(k));
      && (CanCastle(st.cr, c, side) ==> r == Err(RightGivenTwice))
      && (!CanCastle(st.cr, c, side) ==> (r == Err(NoRookFound) <==> NoRookOnSide(b, c, k, side)))
      && (r.Ok? ==> SideFile(r.value.cr, side).Some? && OutermostRook(b, c, k, SideFile(r.value.cr, side).value, side))
      && (forall f: File :: !CanCastle(st.cr, c, side) && OutermostRook(b, c, k, f, side) ==>
            r == if SideFile(st.cr, side).Some? && SideFile(st.cr, side).value != f then Err(RookFileConflict)
                 else Ok(ParseState(WithRight(st.cr, c, side, f), Some(FileOf(k)))))
  {
    forall f: File | !CanCastle(st.cr, c, side) && OutermostRook(b, c, k, f, side)
      ensures rf == Some(f)
    {
      assert b[NewSquare(f, HomeRank(c))] == RookOf(c);
      assert !NoRookOnSide(b, c, k, side);
      OutermostUnique(b, c, k, rf.value, f, side);
    }
  }

  /** A Shredder-FEN file letter, with the king of its color on the home rank off the corner
      files and on the file already fixed by the other color, if any: on the king's file it is
      rejected; otherwise it names the king side when right of the king and the queen side
      when left of it, a right given twice is rejected, a file without the color's rook on the
      home rank is rejected, a side already recording another rook file is rejected, and
      otherwise the right is recorded with that file and the king's file. */
  lemma FileLetterRules(st: ParseState, c: Color, f: File, b: Board, k: Square)
    requires c == White || c == Black
    requires RankOf(k) == HomeRank(c) && 0 < FileOf(k) < 7
    requires st.kingFile.None? || st.kingFile == Some(FileOf(k))
    ensures var r := ColorStep(st, c, RookFileChar(c, f), b, k);
      var side := if f > FileOf(k) then KingSide else QueenSide;
      var rookThere := b[NewSquare(f, HomeRank(c))] == RookOf(c);
      && (f == FileOf(k) ==> r == Err(RookOnKing))
      && (f != FileOf(k) && CanCastle(st.cr, c, side) ==> r == Err(RightGivenTwice))
      && (f != FileOf(k) && !CanCastle(st.cr, c, side) ==> (r == Err(NoRookFound) <==> !rookThere))
      && (f != FileOf(k) && !CanCastle(st.cr, c, side) && rookThere ==>
            r == if SideFile(st.cr, side).Some? && SideFile(st.cr, side).value != f then Err(RookFileConflict)
                 else Ok(ParseState(WithRight(st.cr, c, side, f), Some(FileOf(k)))))
  {
    var ch := RookFileChar(c, f);
    assert ch != RightLetter(c, KingSide) && ch != RightLetter(c, QueenSide);
    assert ColorStep(st, c, ch, b, k) == ShredderFileLetter(st, c, f, b, FileOf(k));
  }

  /** The letter of one right in a Shredder-FEN string: present when the right is held and
      its rook file known. */
  function Part(held: bool, f: Option<File>, c: Color): string {
    if held && f.Some? then [RookFileChar(c, f.value)] else ""
  }

  lemma {:induction false} CastleFoldShift(x: string, y: string, j: nat, st: ParseState, b: Board, wk: Square, bk: Square)
    requires j <= |y|
    ensures CastleFold(x + y, |x| + j, st, b, wk, bk) == CastleFold(y, j, st, b, wk, bk)
    decreases |y| - j
  {
    if j < |y| {
      assert (x + y)[|x| + j] == y[j];
      match CastleStep(st, y[j], b, wk, bk)
      case Ok(next) =>
        CastleFoldShift(x, y, j + 1, next, b, wk, bk);
      case Err(_) =>
    }
  }

  /** Folding a concatenation folds the first part, then the second from the state the first
      part leaves. */
  lemma {:induction false} CastleFoldAppend(x: string, y: string, i: nat, st: ParseState, b: Board, wk: Square, bk: Square)
    requires i <= |x|
    requires CastleFold(x, i, st, b, wk, bk).Ok?
    ensures CastleFold(x + y, i, st, b, wk, bk) == CastleFold(y, 0, CastleFold(x, i, st, b, wk, bk).value, b, wk, bk)
    decreases |x| - i
  {
    if i == |x| {
      CastleFoldShift(x, y, 0, st, b, wk, bk);
    } else {
      assert (x + y)[i] == x[i];
      var next := CastleStep(st, x[i], b, wk, bk).value;
      assert CastleFold(x, i, st, b, wk, bk) == CastleFold(x, i + 1, next, b, wk, bk);
      assert CastleFold(x + y, i, st, b, wk, bk) == CastleFold(x + y, i + 1, next, b, wk, bk);
      CastleFoldAppend(x, y, i + 1, next, b, wk, bk);
    }
  }

  /** A first part that fails makes the concatenation fail with the same error. */
  lemma {:induction false} CastleFoldAppendErr(x: string, y: string, i: nat, st: ParseState, b: Board, wk: Square, bk: Square)
    requires i <= |x|
    requires CastleFold(x, i, st, b, wk, bk).Err?
    ensures CastleFold(x + y, i, st, b, wk, bk) == CastleFold(x, i, st, b, wk, bk)
    decreases |x| - i
  {
    assert (x + y)[i] == x[i];
    match CastleStep(st, x[i], b, wk, bk)
    case Ok(next) =>
      assert CastleFold(x, i, st, b, wk, bk) == CastleFold(x, i + 1, next, b, wk, bk);
      assert CastleFold(x + y, i, st, b, wk, bk) == CastleFold(x + y, i + 1, next, b, wk, bk);
      CastleFoldAppendErr(x, y, i + 1, next, b, wk, bk);
    case Err(e) =>
  }

  /** One held right's letter, read from a state where that right is not yet held, the king
      file is unset or the king's, and the side's rook file is unset or the same, records the
      right. */
  lemma PartStep(st: ParseState, c: Color, side: Side, held: bool, f: Option<File>, b: Board, wk: Square, bk: Square)
    requires c == White || c == Black
    requires side == KingSide || side == QueenSide
    requires held ==> RookBacks(b, c, if c == White then wk else bk, f, side)
    requires held ==> !CanCastle(st.cr, c, side)
    requires held ==> st.kingFile.None? || st.kingFile == Some(FileOf(if c == White then wk else bk))
    requires held ==> SideFile(st.cr, side).None? || SideFile(st.cr, side) == f
    ensures CastleFold(Part(held, f, c), 0, st, b, wk, bk) ==
      if held then Ok(ParseState(WithRight(st.cr, c, side, f.value), Some(FileOf(if c == White then wk else bk))))
      else Ok(st)
  {
    if held {
      var k := if c == White then wk else bk;
      var ch := RookFileChar(c, f.value);
      FileLetterRules(st, c, f.value, b, k);
      assert CastleStep(st, ch, b, wk, bk) == ColorStep(st, c, ch, b, k);
    }
  }

  /** Where a Shredder-FEN letter sits in the string: White's h-side, White's a-side, Black's
      h-side, Black's a-side, given the kings' files. */
  function Slot(ch: char, wf: File, bf: File): int {
    if 'A' <= ch <= 'H' then (if ch as int - 'A' as int > wf then 0 else 1)
    else if ch as int - 'a' as int > bf then 2 else 3
  }

  predicate SlotsRise(s: string, wf: File, bf: File) {
    forall i, j :: 0 <= i < j < |s| ==> Slot(s[i], wf, bf) < Slot(s[j], wf, bf)
  }

  predicate ShredderChars(s: string) {
    forall i :: 0 <= i < |s| ==> 'A' <= s[i] <= 'H' || 'a' <= s[i] <= 'h'
  }

  lemma AppendSlot(x: string, y: string, n: int, wf: File, bf: File)
    requires SlotsRise(x, wf, bf) && forall i :: 0 <= i < |x| ==> Slot(x[i], wf, bf) < n
    requires |y| <= 1 && forall i :: 0 <= i < |y| ==> Slot(y[i], wf, bf) == n
    requires ShredderChars(x) && ShredderChars(y)
    ensures SlotsRise(x + y, wf, bf) && forall i :: 0 <= i < |x + y| ==> Slot((x + y)[i], wf, bf) <= n
    ensures ShredderChars(x + y)
  {
    forall i | 0 <= i < |x + y|
      ensures Slot((x + y)[i], wf, bf) <= n
      ensures 'A' <= (x + y)[i] <= 'H' || 'a' <= (x + y)[i] <= 'h'
    {
      if i >= |x| {
        assert (x + y)[i] == y[i - |x|];
      }
    }
  }

  lemma SlotsRiseDistinct(s: string, wf: File, bf: File)
    requires SlotsRise(s, wf, bf)
    ensures !HasDuplicates(s)
  {
  }

  /** The letter of a backed right sits in its own slot: 0 for White's king side, 1 for
      White's queen side, 2 and 3 for Black's. */
  lemma PartSlot(held: bool, f: Option<File>, c: Color, side: Side, b: Board, k: Square, wf: File, bf: File)
    requires c == White || c == Black
    requires side == KingSide || side == QueenSide
    requires held ==> RookBacks(b, c, k, f, side)
    requires FileOf(k) == if c == White then wf else bf
    ensures |Part(held, f, c)| == if held then 1 else 0
    ensures ShredderChars(Part(held, f, c))
    ensures forall i :: 0 <= i < |Part(held, f, c)| ==>
      Slot(Part(held, f, c)[i], wf, bf) == (if c == White then 0 else 2) + (if side == KingSide then 0 else 1)
  {
  }

  /** Chess960 rights are read back from their Shredder-FEN string exactly when the board
      backs them: each held right's rook on its recorded file of the home rank on the correct
      side of a king on the home rank off the corner files, both kings on one file when both
      colors may castle, and a rook file recorded exactly for the sides some color may castle
      to. */
  lemma {:induction false} NineSixtyRightsRoundTrip(cr: CastleRights, b: Board)
    requires cr.nineSixtyMode && KingsPresent(b)
    requires Sound960(cr, b, KingSquare(b, White).value, KingSquare(b, Black).value)
    requires cr.hSideRookStartingFile.Some? <==> cr.whiteKingSideCastle || cr.blackKingSideCastle
    requires cr.aSideRookStartingFile.Some? <==> cr.whiteQueenSideCastle || cr.blackQueenSideCastle
    ensures FormCastleRightsSpec(RightsString(cr), true, b) == Ok(cr)
  {
    if HasAnyRight(cr) {
      var wk := KingSquare(b, White).value;
      var bk := KingSquare(b, Black).value;
      var p1 := Part(cr.whiteKingSideCastle, cr.hSideRookStartingFile, White);
      var p2 := Part(cr.whiteQueenSideCastle, cr.aSideRookStartingFile, White);
      var p3 := Part(cr.blackKingSideCastle, cr.hSideRookStartingFile, Black);
      var p4 := Part(cr.blackQueenSideCastle, cr.aSideRookStartingFile, Black);
      LettersOf(cr, b, wk, bk, p1, p2, p3, p4);
      RightsStringParts(cr);
      FoldParts(cr, b, wk, bk, p1, p2, p3, p4);
      SpecOfFold(p1 + p2 + p3 + p4, b);
    } else {
      ShredderRightsString(cr);
    }
  }

  /** The Shredder-FEN string is its four parts, or "-" when they are all empty. */
  lemma RightsStringParts(cr: CastleRights)
    requires cr.nineSixtyMode
    ensures var s := Part(cr.whiteKingSideCastle, cr.hSideRookStartingFile, White)
        + Part(cr.whiteQueenSideCastle, cr.aSideRookStartingFile, White)
        + Part(cr.blackKingSideCastle, cr.hSideRookStartingFile, Black)
        + Part(cr.blackQueenSideCastle, cr.aSideRookStartingFile, Black);
      RightsString(cr) == if s == "" then "-" else s
  {
    ShredderRightsString(cr);
  }

  /** A castling field other than "-", of one to four bytes without a repeated character,
      decodes in Chess960 mode to whatever the Chess960 loop ends with. */
  lemma SpecOfFold(s: string, b: Board)
    requires KingsPresent(b)
    requires s != "-" && 1 <= Utf8Len(s) <= 4 && !HasDuplicates(s)
    requires CastleFold(s, 0, ParseState(NoRights(true), None), b, KingSquare(b, White).value, KingSquare(b, Black).value).Ok?
    ensures FormCastleRightsSpec(s, true, b) ==
      Ok(CastleFold(s, 0, ParseState(NoRights(true), None), b, KingSquare(b, White).value, KingSquare(b, Black).value).value.cr)
  {
  }

  /** The Shredder-FEN string of backed rights is one to four distinct one-byte letters. */
  lemma LettersOf(cr: CastleRights, b: Board, wk: Square, bk: Square, p1: string, p2: string, p3: string, p4: string)
    requires Sound960(cr, b, wk, bk) && HasAnyRight(cr)
    requires p1 == Part(cr.whiteKingSideCastle, cr.hSideRookStartingFile, White)
    requires p2 == Part(cr.whiteQueenSideCastle, cr.aSideRookStartingFile, White)
    requires p3 == Part(cr.blackKingSideCastle, cr.hSideRookStartingFile, Black)
    requires p4 == Part(cr.blackQueenSideCastle, cr.aSideRookStartingFile, Black)
    ensures var s := p1 + p2 + p3 + p4;
      && 1 <= |s| <= 4 && Utf8Len(s) == |s| && !HasDuplicates(s) && s != "-"
  {
    var wf := FileOf(wk);
    var bf := FileOf(bk);
    PartSlot(cr.whiteKingSideCastle, cr.hSideRookStartingFile, White, KingSide, b, wk, wf, bf);
    PartSlot(cr.whiteQueenSideCastle, cr.aSideRookStartingFile, White, QueenSide, b, wk, wf, bf);
    PartSlot(cr.blackKingSideCastle, cr.hSideRookStartingFile, Black, KingSide, b, bk, wf, bf);
    PartSlot(cr.blackQueenSideCastle, cr.aSideRookStartingFile, Black, QueenSide, b, bk, wf, bf);
    SlotsOfParts(p1, p2, p3, p4, wf, bf);
    ShredderFacts(p1 + p2 + p3 + p4, wf, bf);
  }

  /** Four parts of at most one letter each, in slots 0 to 3, join into a string whose slots
      rise. */
  lemma SlotsOfParts(p1: string, p2: string, p3: string, p4: string, wf: File, bf: File)
    requires |p1| <= 1 && |p2| <= 1 && |p3| <= 1 && |p4| <= 1
    requires ShredderChars(p1) && ShredderChars(p2) && ShredderChars(p3) && ShredderChars(p4)
    requires forall i :: 0 <= i < |p1| ==> Slot(p1[i], wf, bf) == 0
    requires forall i :: 0 <= i < |p2| ==> Slot(p2[i], wf, bf) == 1
    requires forall i :: 0 <= i < |p3| ==> Slot(p3[i], wf, bf) == 2
    requires forall i :: 0 <= i < |p4| ==> Slot(p4[i], wf, bf) == 3
    ensures SlotsRise(p1 + p2 + p3 + p4, wf, bf) && ShredderChars(p1 + p2 + p3 + p4)
  {
    AppendSlot("", p1, 0, wf, bf);
    assert "" + p1 == p1;
    AppendSlot(p1, p2, 1, wf, bf);
    AppendSlot(p1 + p2, p3, 2, wf, bf);
    AppendSlot(p1 + p2 + p3, p4, 3, wf, bf);
  }

  lemma ShredderFacts(s: string, wf: File, bf: File)
    requires SlotsRise(s, wf, bf) && ShredderChars(s) && |s| >= 1
    ensures Utf8Len(s) == |s| && !HasDuplicates(s) && s != "-"
  {
    SlotsRiseDistinct(s, wf, bf);
    assert forall i :: 0 <= i < |s| ==> s[i] as int < 0x80;
    assert s[0] != '-' && "-"[0] == '-';
  }

  /** The Chess960 loop reads the four parts of a backed Shredder-FEN string one right at a
      time and ends with exactly the rights written. */
  lemma FoldParts(cr: CastleRights, b: Board, wk: Square, bk: Square, p1: string, p2: string, p3: string, p4: string)
    requires cr.nineSixtyMode
    requires Sound960(cr, b, wk, bk)
    requires cr.hSideRookStartingFile.Some? <==> cr.whiteKingSideCastle || cr.blackKingSideCastle
    requires cr.aSideRookStartingFile.Some? <==> cr.whiteQueenSideCastle || cr.blackQueenSideCastle
    requires p1 == Part(cr.whiteKingSideCastle, cr.hSideRookStartingFile, White)
    requires p2 == Part(cr.whiteQueenSideCastle, cr.aSideRookStartingFile, White)
    requires p3 == Part(cr.blackKingSideCastle, cr.hSideRookStartingFile, Black)
    requires p4 == Part(cr.blackQueenSideCastle, cr.aSideRookStartingFile, Black)
    ensures CastleFold(p1 + p2 + p3 + p4, 0, ParseState(NoRights(true), None), b, wk, bk).Ok?
    ensures CastleFold(p1 + p2 + p3 + p4, 0, ParseState(NoRights(true), None), b, wk, bk).value.cr == cr
  {
    var h := cr.hSideRookStartingFile;
    var a := cr.aSideRookStartingFile;
    var wf := FileOf(wk);
    var bf := FileOf(bk);
    var st0 := ParseState(NoRights(true), None);
    var st1 := if cr.whiteKingSideCastle then ParseState(WithRight(st0.cr, White, KingSide, h.value), Some(wf)) else st0;
    var st2 := if cr.whiteQueenSideCastle then ParseState(WithRight(st1.cr, White, QueenSide, a.value), Some(wf)) else st1;
    var st3 := if cr.blackKingSideCastle then ParseState(WithRight(st2.cr, Black, KingSide, h.value), Some(bf)) else st2;
    var st4 := if cr.blackQueenSideCastle then ParseState(WithRight(st3.cr, Black, QueenSide, a.value), Some(bf)) else st3;
    PartStep(st0, White, KingSide, cr.whiteKingSideCastle, h, b, wk, bk);
    PartStep(st1, White, QueenSide, cr.whiteQueenSideCastle, a, b, wk, bk);
    PartStep(st2, Black, KingSide, cr.blackKingSideCastle, h, b, wk, bk);
    PartStep(st3, Black, QueenSide, cr.blackQueenSideCastle, a, b, wk, bk);
    CastleFoldAppend(p1, p2, 0, st0, b, wk, bk);
    CastleFoldAppend(p1 + p2, p3, 0, st0, b, wk, bk);
    CastleFoldAppend(p1 + p2 + p3, p4, 0, st0, b, wk, bk);
    assert st4.cr == cr;
  }
}
