/** The board field of FEN (fenBoard and fenFormRank in fen.go): eight '/'-separated ranks,
    the first being rank 8, each a run of piece letters and digits counting empty squares. */
module FenBoards {
  import opened Wrappers
  import opened Chess
  import opened Text

  /** The kinds of error decodeFEN reports. */
  datatype FenError =
    | WrongFieldCount
    | KingCount | RankCount | PawnOnBackRank | BadRank
    | BadTurn
    | BadCastleLength | DuplicateCastle | NotKQkq | MissingCastlePieces
    | KingNotOnHomeRank | KingOnCornerFile | KingsOnDifferentFiles
    | RightGivenTwice | RookFileConflict | NoRookFound | RookOnKing | UnknownCastleChar
    | BadEnPassantSquare | EnPassantWrongTurn | EnPassantNoPawn
    | BadHalfMoveClock | BadMoveCount
    | KingCapturable

  /** fenPieceMap: the piece of a FEN letter, NoPiece for any other character. */
  function PieceFromChar(c: char): Piece {
    match c
    case 'K' => WhiteKing
    case 'Q' => WhiteQueen
    case 'R' => WhiteRook
    case 'B' => WhiteBishop
    case 'N' => WhiteKnight
    case 'P' => WhitePawn
    case 'k' => BlackKing
    case 'q' => BlackQueen
    case 'r' => BlackRook
    case 'b' => BlackBishop
    case 'n' => BlackKnight
    case 'p' => BlackPawn
    case _ => NoPiece
  }

  /** Every character of a rank is a piece letter or a digit. */
  predicate ValidRankChars(s: string) {
    forall i :: 0 <= i < |s| ==> PieceFromChar(s[i]) != NoPiece || IsDigit(s[i])
  }

  /** The squares a rank text describes, from file A on: a piece letter is one square holding
      that piece, a digit that many empty squares. */
  function ExpandFrom(s: string, i: nat): seq<Piece>
    requires i <= |s|
    decreases |s| - i
  {
    if i == |s| then []
    else
      var piece := PieceFromChar(s[i]);
      (if piece != NoPiece then [piece]
       else if IsDigit(s[i]) then seq(s[i] as int - '0' as int, _ => NoPiece)
       else []) + ExpandFrom(s, i + 1)
  }

  function Expand(s: string): seq<Piece> {
    ExpandFrom(s, 0)
  }

  /** fenFormRank's loop from character i on, with the running file count and the pieces
      placed so far; None when a character is neither a piece letter nor a number. */
  function ScanRank(s: string, i: nat, count: int, m: map<int, Piece>): Option<(int, map<int, Piece>)>
    requires i <= |s|
    decreases |s| - i
  {
    if i == |s| then Some((count, m))
    else
      var piece := PieceFromChar(s[i]);
      if piece == NoPiece then
        match Atoi([s[i]])
        case None => None
        case Some(skip) => ScanRank(s, i + 1, count + skip, m)
      else ScanRank(s, i + 1, count + 1, m[count := piece])
  }

  /** The pieces of a rank keyed by file; every key of m is a file once the count is 8. */
  function ToFileMap(m: map<int, Piece>): map<File, Piece> {
    map f: File | f in m :: m[f]
  }

  /** fenFormRank: the pieces of one rank by file, or an error unless the rank covers exactly
      eight files. */
  function FormRank(s: string): Result<map<File, Piece>, FenError> {
    match ScanRank(s, 0, 0, map[])
    case None => Err(BadRank)
    case Some((count, m)) => if count != 8 then Err(BadRank) else Ok(ToFileMap(m))
  }

  /** fenFormRank as written: one pass over the characters with a running file count. */
  method FenFormRank(s: string) returns (r: Result<map<File, Piece>, FenError>)
    ensures r == FormRank(s)
  {
    var count := 0;
    var m: map<int, Piece> := map[];
    var i := 0;
    while i < |s|
      invariant 0 <= i <= |s|
      invariant ScanRank(s, 0, 0, map[]) == ScanRank(s, i, count, m)
    {
      var c := s[i];
      var piece := PieceFromChar(c);
      if piece == NoPiece {
        var skip := Atoi([c]);
        if skip.None? {
          return Err(BadRank);
        }
        count := count + skip.value;
        i := i + 1;
        continue;
      }
      m := m[count := piece];
      count := count + 1;
      i := i + 1;
    }
    if count != 8 {
      return Err(BadRank);
    }
    return Ok(ToFileMap(m));
  }

  /** The scan from count with the pieces m ended at c2 with the pieces m2 and placed exactly
      the squares of the expansion x after count. */
  ghost predicate Matches(count: int, m: map<int, Piece>, c2: int, m2: map<int, Piece>, x: seq<Piece>) {
    && c2 == count + |x|
    && (forall k :: k in m2 ==> k < c2)
    && (forall k :: k < count ==> (k in m2 <==> k in m) && (k in m ==> m2[k] == m[k]))
    && (forall k :: count <= k < c2 ==> (k in m2 <==> x[k - count] != NoPiece))
    && (forall k :: count <= k < c2 && k in m2 ==> m2[k] == x[k - count])
  }

  lemma PieceStepMatches(count: int, m: map<int, Piece>, piece: Piece, c2: int, m2: map<int, Piece>, rest: seq<Piece>)
    requires forall k :: k in m ==> k < count
    requires piece != NoPiece
    requires Matches(count + 1, m[count := piece], c2, m2, rest)
    ensures Matches(count, m, c2, m2, [piece] + rest)
  {
    var x := [piece] + rest;
    assert forall j :: 1 <= j < |x| ==> x[j] == rest[j - 1];
  }

  lemma SkipStepMatches(count: int, m: map<int, Piece>, skip: nat, c2: int, m2: map<int, Piece>, rest: seq<Piece>)
    requires forall k :: k in m ==> k < count
    requires Matches(count + skip, m, c2, m2, rest)
    ensures Matches(count, m, c2, m2, seq(skip, _ => NoPiece) + rest)
  {
    var x := seq(skip, _ => NoPiece) + rest;
    assert forall j :: skip <= j < |x| ==> x[j] == rest[j - skip];
    assert forall j :: 0 <= j < skip ==> x[j] == NoPiece;
  }

  /** The scan succeeds exactly on valid characters. */
  lemma {:induction false} ScanRankValid(s: string, i: nat, count: int, m: map<int, Piece>)
    requires i <= |s|
    ensures ScanRank(s, i, count, m).Some? <==> forall j :: i <= j < |s| ==> PieceFromChar(s[j]) != NoPiece || IsDigit(s[j])
    decreases |s| - i
  {
    if i < |s| {
      DigitAtoi(s[i]);
      var piece := PieceFromChar(s[i]);
      if piece == NoPiece {
        if IsDigit(s[i]) {
          ScanRankValid(s, i + 1, count + (s[i] as int - '0' as int), m);
        }
      } else {
        ScanRankValid(s, i + 1, count + 1, m[count := piece]);
      }
    }
  }

  /** A successful scan ends at the count plus the length of the expansion, and places
      exactly the expansion's pieces after the count. */
  lemma {:induction false} ScanRankExpands(s: string, i: nat, count: int, m: map<int, Piece>)
    requires i <= |s|
    requires forall k :: k in m ==> k < count
    requires ScanRank(s, i, count, m).Some?
    ensures Matches(count, m, ScanRank(s, i, count, m).value.0, ScanRank(s, i, count, m).value.1, ExpandFrom(s, i))
    decreases |s| - i
  {
    var (c2, m2) := ScanRank(s, i, count, m).value;
    if i == |s| {
    } else {
      var piece := PieceFromChar(s[i]);
      if piece == NoPiece {
        DigitAtoi(s[i]);
        var skip := s[i] as int - '0' as int;
        ScanRankExpands(s, i + 1, count + skip, m);
        SkipStepMatches(count, m, skip, c2, m2, ExpandFrom(s, i + 1));
      } else {
        ScanRankExpands(s, i + 1, count + 1, m[count := piece]);
        PieceStepMatches(count, m, piece, c2, m2, ExpandFrom(s, i + 1));
      }
    }
  }

  /** A rank decodes exactly when all its characters are piece letters or digits and it expands
      to eight squares; the pieces decoded are then exactly those of the expansion. */
  lemma {:induction false} FormRankExpands(s: string)
    ensures FormRank(s).Ok? <==> ValidRankChars(s) && |Expand(s)| == 8
    ensures FormRank(s).Ok? ==> forall f: File ::
      (f in FormRank(s).value <==> Expand(s)[f] != NoPiece) &&
      (f in FormRank(s).value ==> FormRank(s).value[f] == Expand(s)[f])
  {
    ScanRankValid(s, 0, 0, map[]);
    if ScanRank(s, 0, 0, map[]).Some? {
      ScanRankExpands(s, 0, 0, map[]);
    }
  }

  /** A piece letter of a valid rank shows up in its expansion. */
  lemma {:induction false} LetterInExpansion(s: string, i: nat, c: char)
    requires i <= |s|
    requires c in s[i..] && PieceFromChar(c) != NoPiece
    ensures PieceFromChar(c) in ExpandFrom(s, i)
    decreases |s| - i
  {
    if s[i] == c {
      assert ExpandFrom(s, i)[0] == PieceFromChar(c);
    } else {
      assert c in s[i + 1..] by {
        var j :| 0 <= j < |s[i..]| && s[i..][j] == c;
        assert j > 0 && s[i + 1..][j - 1] == c;
      }
      LetterInExpansion(s, i + 1, c);
    }
  }

  /** No pawn appears in the expansion of a text without pawn letters. */
  lemma {:induction false} NoPawnInExpansion(s: string, i: nat)
    requires i <= |s|
    requires 'p' !in s && 'P' !in s
    ensures forall k :: 0 <= k < |ExpandFrom(s, i)| ==> ExpandFrom(s, i)[k].Type() != Pawn
    decreases |s| - i
  {
    if i < |s| {
      NoPawnInExpansion(s, i + 1);
      assert s[i] != 'p' && s[i] != 'P';
    }
  }

  /** One rank of fenBoard: field i describes rank 8 - i, and a pawn letter on the first or last
      rank is rejected before the rank is read. */
  function CheckRank(rankStr: string, i: int): Result<map<File, Piece>, FenError> {
    var rank := 7 - i;
    if (rank == 0 || rank == 7) && ('p' in rankStr || 'P' in rankStr) then Err(PawnOnBackRank)
    else FormRank(rankStr)
  }

  /** The ranks from field i on, stopping at the first that fails. */
  function RanksFrom(ranks: seq<string>, i: nat): (r: Result<seq<map<File, Piece>>, FenError>)
    requires i <= |ranks|
    ensures r.Ok? ==> |r.value| == |ranks| - i
    decreases |ranks| - i
  {
    if i == |ranks| then Ok([])
    else
      var mi :- CheckRank(ranks[i], i);
      var rest :- RanksFrom(ranks, i + 1);
      Ok([mi] + rest)
  }

  /** The board holding, on each square, the piece the map gives it, empty elsewhere (NewBoard). */
  function NewBoard(m: map<Square, Piece>): Board {
    seq(64, sq requires 0 <= sq < 64 => if sq in m then m[sq] else NoPiece)
  }

  /** fenBoard: exactly one white and one black king letter, eight ranks, each decoded in turn. */
  function FenBoardSpec(s: string): Result<Board, FenError> {
    if Count(s, 'K') != 1 || Count(s, 'k') != 1 then Err(KingCount)
    else
      var rankStrs := Split(s, '/');
      if |rankStrs| != 8 then Err(RankCount)
      else
        var maps :- RanksFrom(rankStrs, 0);
        Ok(NewBoard(PlacedRanks(maps)))
  }

  /** The result of the loop once the first i ranks have given the maps in acc. */
  function Continue(acc: seq<map<File, Piece>>, rest: Result<seq<map<File, Piece>>, FenError>): Result<seq<map<File, Piece>>, FenError> {
    match rest
    case Err(e) => Err(e)
    case Ok(r) => Ok(acc + r)
  }

  lemma ContinueAppend(acc: seq<map<File, Piece>>, x: map<File, Piece>, rest: Result<seq<map<File, Piece>>, FenError>)
    ensures Continue(acc, Continue([x], rest)) == Continue(acc + [x], rest)
  {
    if rest.Ok? {
      assert acc + ([x] + rest.value) == (acc + [x]) + rest.value;
    }
  }

  /** fenBoard as written: the ranks are decoded one after another and their pieces are copied
      into one square map, which becomes the board. */
  method FenBoard(s: string) returns (r: Result<Board, FenError>)
    ensures r == FenBoardSpec(s)
  {
    if Count(s, 'K') != 1 || Count(s, 'k') != 1 {
      return Err(KingCount);
    }
    var rankStrs := Split(s, '/');
    if |rankStrs| != 8 {
      return Err(RankCount);
    }
    var m: map<Square, Piece> := map[];
    ghost var acc: seq<map<File, Piece>> := [];
    var i := 0;
    assert RanksFrom(rankStrs, 0) == Continue(acc, RanksFrom(rankStrs, 0)) by {
      if RanksFrom(rankStrs, 0).Ok? {
        assert acc + RanksFrom(rankStrs, 0).value == RanksFrom(rankStrs, 0).value;
      }
    }
    while i < 8
      invariant 0 <= i <= 8 && |acc| == i
      invariant RanksFrom(rankStrs, 0) == Continue(acc, RanksFrom(rankStrs, i))
      invariant m == PlacedRanks(acc)
    {
      var rank := 7 - i;
      RanksFromStep(rankStrs, i, acc);
      if (rank == 0 || rank == 7) && ('p' in rankStrs[i] || 'P' in rankStrs[i]) {
        assert CheckRank(rankStrs[i], i) == Err(PawnOnBackRank);
        FenBoardSpecRanks(s, rankStrs);
        return Err(PawnOnBackRank);
      }
      var fileMap := FenFormRank(rankStrs[i]);
      assert CheckRank(rankStrs[i], i) == fileMap;
      if fileMap.Err? {
        FenBoardSpecRanks(s, rankStrs);
        return Err(fileMap.error);
      }
      var m2 := CopyRank(m, fileMap.value, rank);
      PlacedRanksNext(acc, fileMap.value, rank, m, m2);
      m := m2;
      acc := acc + [fileMap.value];
      i := i + 1;
    }
    assert RanksFrom(rankStrs, 0) == Ok(acc) by {
      assert RanksFrom(rankStrs, 8) == Ok([]);
      assert acc + [] == acc;
    }
    FenBoardSpecRanks(s, rankStrs);
    return Ok(NewBoard(m));
  }

  /** The map the loop holds after copying one more rank is the placement of one more rank. */
  lemma PlacedRanksNext(acc: seq<map<File, Piece>>, x: map<File, Piece>, rank: Rank, m: map<Square, Piece>, m2: map<Square, Piece>)
    requires |acc| < 8 && rank == 7 - |acc| && m == PlacedRanks(acc)
    requires m2 == m + RankEntries(x, rank, 8)
    ensures m2 == PlacedRanks(acc + [x])
  {
    PlacedRanksAppend(acc, x);
  }

  /** One step of the rank loop: the i-th rank either fails, ending the decoding with its error,
      or adds its map to those decoded so far. */
  lemma RanksFromStep(ranks: seq<string>, i: nat, acc: seq<map<File, Piece>>)
    requires i < |ranks|
    ensures CheckRank(ranks[i], i).Err? ==> Continue(acc, RanksFrom(ranks, i)) == Err(CheckRank(ranks[i], i).error)
    ensures CheckRank(ranks[i], i).Ok? ==>
      Continue(acc, RanksFrom(ranks, i)) == Continue(acc + [CheckRank(ranks[i], i).value], RanksFrom(ranks, i + 1))
  {
    if CheckRank(ranks[i], i).Ok? {
      var x := CheckRank(ranks[i], i).value;
      assert RanksFrom(ranks, i) == Continue([x], RanksFrom(ranks, i + 1));
      ContinueAppend(acc, x, RanksFrom(ranks, i + 1));
    }
  }

  /** Once the king counts and the number of ranks are right, fenBoard's outcome is that of
      decoding the ranks. */
  lemma FenBoardSpecRanks(s: string, rankStrs: seq<string>)
    requires Count(s, 'K') == 1 && Count(s, 'k') == 1
    requires rankStrs == Split(s, '/') && |rankStrs| == 8
    ensures FenBoardSpec(s) == (match RanksFrom(rankStrs, 0)
                                case Err(e) => Err(e)
                                case Ok(maps) => Ok(NewBoard(PlacedRanks(maps))))
  {
  }

  /** The squares of the first |acc| ranks from the top, holding the pieces their maps give. */
  function PlacedRanks(acc: seq<map<File, Piece>>): map<Square, Piece>
    requires |acc| <= 8
  {
    if |acc| == 0 then map[]
    else PlacedRanks(acc[..|acc| - 1]) + RankEntries(acc[|acc| - 1], 7 - (|acc| - 1), 8)
  }

  /** The squares of one rank below file f, holding the pieces its map gives. */
  function RankEntries(fileMap: map<File, Piece>, rank: Rank, f: nat): map<Square, Piece>
    requires f <= 8
  {
    if f == 0 then map[]
    else
      var e := RankEntries(fileMap, rank, f - 1);
      if f - 1 in fileMap then e[NewSquare(f - 1, rank) := fileMap[f - 1]] else e
  }

  lemma {:induction false} RankEntriesSquares(fileMap: map<File, Piece>, rank: Rank, f: nat)
    requires f <= 8
    ensures forall sq: Square :: sq in RankEntries(fileMap, rank, f) <==> RankOf(sq) == rank && FileOf(sq) < f && FileOf(sq) in fileMap
    ensures forall sq: Square :: sq in RankEntries(fileMap, rank, f) ==> RankEntries(fileMap, rank, f)[sq] == fileMap[FileOf(sq)]
  {
    if f > 0 {
      RankEntriesSquares(fileMap, rank, f - 1);
    }
  }

  lemma PlacedRanksAppend(acc: seq<map<File, Piece>>, x: map<File, Piece>)
    requires |acc| < 8
    ensures PlacedRanks(acc) + RankEntries(x, 7 - |acc|, 8) == PlacedRanks(acc + [x])
  {
    var full := acc + [x];
    assert full[..|acc|] == acc && full[|acc|] == x;
    PlacedRanksLast(full);
  }

  /** The last rank of the list is the one PlacedRanks adds on top of the others. */
  lemma PlacedRanksLast(full: seq<map<File, Piece>>)
    requires 0 < |full| <= 8
    ensures PlacedRanks(full) == PlacedRanks(full[..|full| - 1]) + RankEntries(full[|full| - 1], 7 - (|full| - 1), 8)
  {
  }

  /** Square by square: a square of the first |acc| ranks from the top holds what its rank's
      map gives its file. */
  lemma {:induction false} PlacedRanksSquare(acc: seq<map<File, Piece>>, sq: Square)
    requires |acc| <= 8
    ensures sq in PlacedRanks(acc) <==> 7 - RankOf(sq) < |acc| && FileOf(sq) in acc[7 - RankOf(sq)]
    ensures sq in PlacedRanks(acc) ==> PlacedRanks(acc)[sq] == acc[7 - RankOf(sq)][FileOf(sq)]
  {
    if |acc| > 0 {
      var prev := acc[..|acc| - 1];
      PlacedRanksSquare(prev, sq);
      RankEntriesSquares(acc[|acc| - 1], 7 - (|acc| - 1), 8);
      if 7 - RankOf(sq) < |prev| {
        assert acc[7 - RankOf(sq)] == prev[7 - RankOf(sq)];
      }
    }
  }

  /** The inner loop of fenBoard: the pieces of one rank are written into the square map. */
  method CopyRank(m: map<Square, Piece>, fileMap: map<File, Piece>, rank: Rank) returns (m2: map<Square, Piece>)
    ensures m2 == m + RankEntries(fileMap, rank, 8)
  {
    m2 := m;
    var f: int := 0;
    while f < 8
      invariant 0 <= f <= 8
      invariant m2 == m + RankEntries(fileMap, rank, f)
    {
      if f in fileMap {
        m2 := m2[NewSquare(f, rank) := fileMap[f]];
      }
      f := f + 1;
    }
  }

  /** The square of the decoded board in terms of the decoded maps. */
  lemma RanksMapSquare(maps: seq<map<File, Piece>>, f: File, i: int)
    requires |maps| == 8 && 0 <= i < 8
    ensures NewBoard(PlacedRanks(maps))[NewSquare(f, 7 - i)] ==
      if f in maps[i] then maps[i][f] else NoPiece
  {
    var sq := NewSquare(f, 7 - i);
    PlacedRanksSquare(maps, NewSquare(f, 7 - i));
    assert 7 - RankOf(sq) == i && FileOf(sq) == f;
  }

  /** Field i of the board text describes rank 8 - i: each square holds the piece the
      expansion of that field gives its file. */
  lemma {:induction false} FenBoardPlacement(s: string, i: int, f: File)
    requires FenBoardSpec(s).Ok? && 0 <= i < 8
    ensures |Split(s, '/')| == 8
    ensures |Expand(Split(s, '/')[i])| == 8
    ensures FenBoardSpec(s).value[NewSquare(f, 7 - i)] == Expand(Split(s, '/')[i])[f]
  {
    var ranks := Split(s, '/');
    var maps := RanksFrom(ranks, 0).value;
    assert FenBoardSpec(s).value == NewBoard(PlacedRanks(maps));
    RanksFromParts(ranks, 0, i);
    assert FormRank(ranks[i]) == Ok(maps[i]);
    FormRankExpands(ranks[i]);
    RanksMapSquare(maps, f, i);
  }

  /** Each decoded map is the decoding of its own field. */
  lemma {:induction false} RanksFromParts(ranks: seq<string>, i: nat, j: nat)
    requires i <= j < |ranks|
    requires RanksFrom(ranks, i).Ok?
    ensures CheckRank(ranks[j], j) == Ok(RanksFrom(ranks, i).value[j - i])
    decreases j - i
  {
    if i < j {
      RanksFromParts(ranks, i + 1, j);
    }
  }

  /** A decoded board has no pawn on the first or the last rank. */
  lemma {:induction false} FenBoardNoBackRankPawns(s: string, f: File)
    requires FenBoardSpec(s).Ok?
    ensures FenBoardSpec(s).value[NewSquare(f, 0)].Type() != Pawn
    ensures FenBoardSpec(s).value[NewSquare(f, 7)].Type() != Pawn
  {
    var ranks := Split(s, '/');
    FenBoardPlacement(s, 0, f);
    FenBoardPlacement(s, 7, f);
    RanksFromParts(ranks, 0, 0);
    RanksFromParts(ranks, 0, 7);
    NoPawnInExpansion(ranks[0], 0);
    NoPawnInExpansion(ranks[7], 0);
  }

  /** A piece letter of the whole board text shows up in the expansion of one field. */
  lemma {:induction false} LetterInSomeField(s: string, c: char) returns (i: int)
    requires c in s && PieceFromChar(c) != NoPiece
    ensures 0 <= i < |Split(s, '/')|
    ensures PieceFromChar(c) in Expand(Split(s, '/')[i])
  {
    var ranks := Split(s, '/');
    JoinSplit(s, '/');
    i := InJoinedPart(ranks, '/', c);
    assert ranks[i][0..] == ranks[i];
    LetterInExpansion(ranks[i], 0, c);
  }

  /** A piece letter of the whole board text stands somewhere on the decoded board. */
  lemma {:induction false} FenBoardHasPiece(s: string, c: char)
    requires FenBoardSpec(s).Ok?
    requires c in s && PieceFromChar(c) != NoPiece
    ensures exists sq: Square :: FenBoardSpec(s).value[sq] == PieceFromChar(c)
  {
    var i := LetterInSomeField(s, c);
    FenBoardPlacement(s, 0, 0);
    FenBoardPlacement(s, i, 0);
    var x := Expand(Split(s, '/')[i]);
    var f :| 0 <= f < |x| && x[f] == PieceFromChar(c);
    FenBoardPlacement(s, i, f);
    assert FenBoardSpec(s).value[NewSquare(f, 7 - i)] == PieceFromChar(c);
  }

  /** A character other than the separator that occurs in a join occurs in one of its parts. */
  lemma {:induction false} InJoinedPart(parts: seq<string>, sep: char, c: char) returns (i: nat)
    requires |parts| >= 1 && c != sep && c in Join(parts, sep)
    ensures i < |parts| && c in parts[i]
    decreases |parts|
  {
    if |parts| == 1 {
      i := 0;
    } else {
      var rest := Join(parts[1..], sep);
      assert Join(parts, sep) == parts[0] + [sep] + rest;
      if c in parts[0] {
        i := 0;
      } else {
        assert c in rest;
        var j := InJoinedPart(parts[1..], sep, c);
        i := j + 1;
      }
    }
  }

  /** A decoded board has both kings, so both king squares are known. */
  lemma {:induction false} FenBoardHasKings(s: string)
    requires FenBoardSpec(s).Ok?
    ensures KingSquare(FenBoardSpec(s).value, White).Some?
    ensures KingSquare(FenBoardSpec(s).value, Black).Some?
  {
    FenBoardHasPiece(s, 'K');
    FenBoardHasPiece(s, 'k');
  }

  /** A board text that decodes holds nothing but piece letters, digits and rank separators. */
  lemma {:induction false} FenBoardChars(s: string, c: char)
    requires FenBoardSpec(s).Ok? && c in s
    ensures c == '/' || PieceFromChar(c) != NoPiece || IsDigit(c)
  {
    if c != '/' {
      var ranks := Split(s, '/');
      JoinSplit(s, '/');
      var i := InJoinedPart(ranks, '/', c);
      RanksFromParts(ranks, 0, i);
      FormRankExpands(ranks[i]);
      var k :| 0 <= k < |ranks[i]| && ranks[i][k] == c;
    }
  }

  /** No character of a board text is white space. */
  lemma BoardCharNotSpace(c: char)
    requires c == '/' || PieceFromChar(c) != NoPiece || IsDigit(c)
    ensures !IsSpace(c)
  {
  }
}
