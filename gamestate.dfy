/** The game state of the older copy of the library vendored under chessimg
    (game_state.go): a board, the side to move, castling rights kept as their FEN text, an
    optional en-passant square and the two clocks. Its legal moves are found by enumerating
    every origin of the side to move and every destination and keeping the candidates the
    move validator accepts. */
module GameStates {
  import opened Wrappers
  import opened Seqs
  import opened Chess
  import opened Text
  import opened Castling
  import opened Positions

  datatype GameState = GameState(
    board: Board,
    turn: Color,
    castleRights: string,
    enPassantSquare: Option<Square>,
    halfMoveClock: int,
    moveCount: int)

  datatype Outcome = NoOutcome | WhiteWon | BlackWon | Draw

  /** What the state relies on from the rest of the vendored package: the move validator
      (Move.isValid, which reads the state the candidate carries), the check test of the board
      and the board's FEN text. */
  datatype Rules = Rules(
    isValid: (Move, GameState) -> bool,
    inCheck: (Board, Color) -> bool,
    boardString: Board -> string)

  // ---------------------------------------------------------------------------------------
  // Castling rights as text

  /** The letter CanCastle looks for: k, or q for the queen side, upper-case for White. */
  function CastleLetter(c: Color, side: Side): (ch: char)
    ensures ch in "KQkq"
  {
    var lower := if side == QueenSide then 'q' else 'k';
    if c == White then (lower as int - 32) as char else lower
  }

  /** CastleRights.CanCastle: whether the rights text contains the letter of that color and
      side. Any side other than the queen side is read as the king side, and any color other
      than White as Black. */
  function CanCastleText(cr: string, c: Color, side: Side): (r: bool)
    ensures r <==> (if c == White then (if side == QueenSide then 'Q' else 'K')
                    else (if side == QueenSide then 'q' else 'k')) in cr
  {
    CastleLetter(c, side) in cr
  }

  /** On the text the newer library prints for normal-mode rights, the vendored check agrees
      with the newer rights record for both colors and both sides. */
  lemma {:induction false} CanCastleTextAgrees(cr: CastleRights, c: Color, side: Side)
    requires !cr.nineSixtyMode
    requires (c == White || c == Black) && (side == KingSide || side == QueenSide)
    ensures CanCastleText(RightsString(cr), c, side) == Castling.CanCastle(cr, c, side)
  {
    var a := if cr.whiteKingSideCastle then "K" else "";
    var b := if cr.whiteQueenSideCastle then "Q" else "";
    var k := if cr.blackKingSideCastle then "k" else "";
    var q := if cr.blackQueenSideCastle then "q" else "";
    assert RightsLetters(cr) == a + b + k + q;
  }

  // ---------------------------------------------------------------------------------------
  // Text

  /** The six fields GameState.String prints: board, turn, rights text, en-passant square or
      "-", and the two clocks. */
  function StateFields(gs: GameState, rules: Rules): (f: seq<string>)
    ensures |f| == 6 && f[2] == gs.castleRights
    ensures f[3] == "-" <==> gs.enPassantSquare.None?
  {
    [rules.boardString(gs.board), gs.turn.Name(), gs.castleRights, EnPassantField(gs.enPassantSquare),
     IntToString(gs.halfMoveClock), IntToString(gs.moveCount)]
  }

  /** GameState.String: the six fields separated by single spaces. */
  function StateString(gs: GameState, rules: Rules): string {
    Join(StateFields(gs, rules), ' ')
  }

  /** When neither the board text nor the rights text has a space, the printed state splits
      back into exactly its six fields. */
  lemma {:induction false} StateStringFields(gs: GameState, rules: Rules)
    requires ' ' !in rules.boardString(gs.board) && ' ' !in gs.castleRights
    ensures Split(StateString(gs, rules), ' ') == StateFields(gs, rules)
  {
    var f := StateFields(gs, rules);
    NoSpaceInNumber(gs.halfMoveClock);
    NoSpaceInNumber(gs.moveCount);
    assert ' ' !in gs.turn.Name();
    assert ' ' !in EnPassantField(gs.enPassantSquare);
    forall i | 0 <= i < 6 ensures ' ' !in f[i] {
    }
    SplitJoin(f, ' ');
  }

  /** The state of a position of the newer library, with its rights as printed text. */
  function StateOf(p: Position): GameState {
    GameState(p.board, p.turn, RightsString(p.castleRights), p.enPassantSquare, p.halfMoveClock, p.moveCount)
  }

  /** The vendored state prints a position exactly as the newer position printer does. */
  lemma StateStringAgrees(p: Position, e: Engine, rules: Rules)
    requires rules.boardString == e.boardString
    ensures StateString(StateOf(p), rules) == PositionString(p, e)
  {
    assert StateFields(StateOf(p), rules) == Fields(p, e, RightsString(p.castleRights), EnPassantField(p.enPassantSquare));
  }

  /** samePosition: equal board text, side to move, rights text and en-passant square; the
      clocks are not compared. */
  predicate SameState(gs: GameState, g: GameState, rules: Rules) {
    && rules.boardString(gs.board) == rules.boardString(g.board)
    && gs.turn == g.turn
    && gs.castleRights == g.castleRights
    && gs.enPassantSquare == g.enPassantSquare
  }

  /** The comparison is an equivalence relation and ignores both clocks. */
  lemma SameStateEquivalence(gs: GameState, g: GameState, h: GameState, rules: Rules, half: int, full: int)
    ensures SameState(gs, gs, rules)
    ensures SameState(gs, g, rules) ==> SameState(g, gs, rules)
    ensures SameState(gs, g, rules) && SameState(g, h, rules) ==> SameState(gs, h, rules)
    ensures SameState(gs, gs.(halfMoveClock := half, moveCount := full), rules)
  {
  }

  /** Two states that print the same (board text and rights text without spaces) are the same
      position in the sense of SameState. This rests on comparing en-passant squares by value:
      the vendored samePosition compares the addresses of the squares, so two states decoded
      separately with an en-passant square are not the same there even when their text is. */
  lemma {:induction false} SameStringSameState(gs: GameState, g: GameState, rules: Rules)
    requires ' ' !in rules.boardString(gs.board) && ' ' !in gs.castleRights
    requires ' ' !in rules.boardString(g.board) && ' ' !in g.castleRights
    requires StateString(gs, rules) == StateString(g, rules)
    ensures SameState(gs, g, rules)
  {
    StateStringFields(gs, rules);
    StateStringFields(g, rules);
    var f, f' := StateFields(gs, rules), StateFields(g, rules);
    assert f == f';
    assert f[1] == f'[1];
    assert f[3] == f'[3];
    if gs.enPassantSquare.Some? {
      assert ParseSquare(f[3]) == gs.enPassantSquare;
    }
  }

  // ---------------------------------------------------------------------------------------
  // Candidate moves

  /** A move the enumeration proposes, with the state the validator reads it against. */
  datatype Candidate = Candidate(move: Move, state: GameState)

  /** PieceTypes(): the piece types in the package's order. */
  const PieceTypes: seq<PieceType> := [King, Queen, Rook, Bishop, Knight, Pawn]

  /** Board.squaresForColor: the squares below n holding a piece of the color, in increasing
      order. */
  function SquaresBelow(b: Board, c: Color, n: nat): (r: seq<Square>)
    requires n <= 64
    ensures forall sq: Square :: sq in r <==> sq < n && b[sq].Color() == c
  {
    if n == 0 then [] else SquaresBelow(b, c, n - 1) + (if b[n - 1].Color() == c then [n - 1] else [])
  }

  function SquaresForColor(b: Board, c: Color): (r: seq<Square>)
    ensures forall sq: Square :: sq in r <==> b[sq].Color() == c
  {
    SquaresBelow(b, c, 64)
  }

  /** A pawn heading for the first or last rank, which is proposed once per promotable type. */
  predicate CouldPromo(p: Piece, s2: Square) {
    p.Type() == Pawn && (RankOf(s2) == 0 || RankOf(s2) == 7)
  }

  /** The state a candidate without promotion is validated against: only board and turn, no
      rights, no en-passant square and zero clocks. */
  function BareState(gs: GameState): GameState {
    GameState(gs.board, gs.turn, "", None, 0, 0)
  }

  /** The promotion candidates from s1 to s2 for the first k piece types. */
  function PromoCandidates(gs: GameState, s1: Square, s2: Square, types: seq<PieceType>, k: nat): seq<Candidate>
    requires k <= |types|
  {
    if k == 0 then []
    else
      var pt := types[k - 1];
      PromoCandidates(gs, s1, s2, types, k - 1) + (if IsPromotable(pt) then [Candidate(Move(s1, s2, pt, {}), gs)] else [])
  }

  /** The candidates for one origin and destination. */
  function PairCandidates(gs: GameState, s1: Square, s2: Square): seq<Candidate> {
    if CouldPromo(gs.board[s1], s2) then PromoCandidates(gs, s1, s2, PieceTypes, |PieceTypes|)
    else [Candidate(Move(s1, s2, NoPieceType, {}), BareState(gs))]
  }

  /** The candidates from one origin to the destinations below n. */
  function DestCandidates(gs: GameState, s1: Square, n: nat): seq<Candidate>
    requires n <= 64
  {
    if n == 0 then [] else DestCandidates(gs, s1, n - 1) + PairCandidates(gs, s1, n - 1)
  }

  /** The candidates from the first i origins. */
  function OriginCandidates(gs: GameState, origins: seq<Square>, i: nat): seq<Candidate>
    requires i <= |origins|
  {
    if i == 0 then [] else OriginCandidates(gs, origins, i - 1) + DestCandidates(gs, origins[i - 1], 64)
  }

  /** Every candidate of the state, in enumeration order. */
  function Candidates(gs: GameState): seq<Candidate> {
    var origins := SquaresForColor(gs.board, gs.turn);
    OriginCandidates(gs, origins, |origins|)
  }

  /** The candidates the validator accepts, in their order. */
  function Passing(cs: seq<Candidate>, isValid: (Move, GameState) -> bool): (r: seq<Candidate>)
    ensures |r| <= |cs|
  {
    if |cs| == 0 then []
    else
      var last := cs[|cs| - 1];
      Passing(cs[..|cs| - 1], isValid) + (if isValid(last.move, last.state) then [last] else [])
  }

  /** The candidates kept are exactly those the validator accepts. */
  lemma {:induction false} PassingMembers(cs: seq<Candidate>, isValid: (Move, GameState) -> bool, c: Candidate)
    ensures c in Passing(cs, isValid) <==> c in cs && isValid(c.move, c.state)
  {
    if |cs| > 0 {
      PassingMembers(cs[..|cs| - 1], isValid, c);
      assert cs == cs[..|cs| - 1] + [cs[|cs| - 1]];
    }
  }

  lemma PassingSnoc(cs: seq<Candidate>, c: Candidate, isValid: (Move, GameState) -> bool)
    ensures Passing(cs + [c], isValid) == Passing(cs, isValid) + (if isValid(c.move, c.state) then [c] else [])
  {
    assert (cs + [c])[..|cs|] == cs;
  }

  /** Filtering distributes over concatenation. */
  lemma {:induction false} PassingAppend(a: seq<Candidate>, b: seq<Candidate>, isValid: (Move, GameState) -> bool)
    ensures Passing(a + b, isValid) == Passing(a, isValid) + Passing(b, isValid)
  {
    if |b| > 0 {
      var b' := b[..|b| - 1];
      PassingAppend(a, b', isValid);
      assert (a + b)[..|a + b| - 1] == a + b';
      Assoc(Passing(a, isValid), Passing(b', isValid), if isValid(b[|b| - 1].move, b[|b| - 1].state) then [b[|b| - 1]] else []);
    } else {
      assert a + b == a;
    }
  }

  /** validMoves as written: three nested loops over origins, destinations and promotion
      types, appending every candidate the validator accepts. The loops over destinations
      and promotion types are the methods below, each appending to the moves it is given. */
  method ValidMoves(gs: GameState, rules: Rules) returns (moves: seq<Candidate>)
    ensures moves == Passing(Candidates(gs), rules.isValid)
  {
    var isValid := rules.isValid;
    moves := [];
    var origins := SquaresForColor(gs.board, gs.turn);
    var i := 0;
    while i < |origins|
      invariant 0 <= i <= |origins|
      invariant moves == Passing(OriginCandidates(gs, origins, i), isValid)
    {
      ghost var prev := moves;
      moves := AddMovesFrom(gs, isValid, origins[i], moves);
      OriginStep(gs, origins, i, isValid, prev, moves);
      i := i + 1;
    }
  }

  /** One step of the origin loop keeps its invariant. */
  lemma OriginStep(gs: GameState, origins: seq<Square>, i: nat, isValid: (Move, GameState) -> bool, prev: seq<Candidate>, next: seq<Candidate>)
    requires i < |origins|
    requires prev == Passing(OriginCandidates(gs, origins, i), isValid)
    requires next == prev + Passing(DestCandidates(gs, origins[i], 64), isValid)
    ensures next == Passing(OriginCandidates(gs, origins, i + 1), isValid)
  {
    PassingAppend(OriginCandidates(gs, origins, i), DestCandidates(gs, origins[i], 64), isValid);
  }

  /** The destination loop of validMoves for one origin: appends, in order, the candidates
      from s1 that the validator accepts. */
  method AddMovesFrom(gs: GameState, isValid: (Move, GameState) -> bool, s1: Square, moves: seq<Candidate>) returns (moves': seq<Candidate>)
    ensures moves' == moves + Passing(DestCandidates(gs, s1, 64), isValid)
  {
    moves' := moves;
    var p := gs.board[s1];
    var s2 := 0;
    while s2 < 64
      invariant 0 <= s2 <= 64
      invariant moves' == moves + Passing(DestCandidates(gs, s1, s2), isValid)
    {
      ghost var prev := moves';
      var couldPromo := p.Type() == Pawn && (RankOf(s2) == 0 || RankOf(s2) == 7);
      if couldPromo {
        moves' := AddPromotions(gs, isValid, s1, s2, PieceTypes, moves');
      } else {
        var m := Move(s1, s2, NoPieceType, {});
        var st := GameState(gs.board, gs.turn, "", None, 0, 0);
        if isValid(m, st) {
          moves' := moves' + [Candidate(m, st)];
        }
      }
      DestStep(gs, s1, s2, isValid, moves, prev, moves');
      s2 := s2 + 1;
    }
  }

  /** One step of the destination loop keeps its invariant. */
  lemma DestStep(gs: GameState, s1: Square, s2: Square, isValid: (Move, GameState) -> bool, moves: seq<Candidate>, prev: seq<Candidate>, next: seq<Candidate>)
    requires prev == moves + Passing(DestCandidates(gs, s1, s2), isValid)
    requires next == prev + Passing(PairCandidates(gs, s1, s2), isValid)
    ensures next == moves + Passing(DestCandidates(gs, s1, s2 + 1), isValid)
  {
    PassingAppend(DestCandidates(gs, s1, s2), PairCandidates(gs, s1, s2), isValid);
    Assoc(moves, Passing(DestCandidates(gs, s1, s2), isValid), Passing(PairCandidates(gs, s1, s2), isValid));
  }

  /** The promotion loop of validMoves for a pawn heading from s1 to s2 for the last or first
      rank: appends, in order, the promotions the validator accepts. */
  method AddPromotions(gs: GameState, isValid: (Move, GameState) -> bool, s1: Square, s2: Square, types: seq<PieceType>, moves: seq<Candidate>) returns (moves': seq<Candidate>)
    ensures moves' == moves + Passing(PromoCandidates(gs, s1, s2, types, |types|), isValid)
  {
    var added := [];
    var k := 0;
    while k < |types|
      invariant 0 <= k <= |types|
      invariant added == Passing(PromoCandidates(gs, s1, s2, types, k), isValid)
    {
      ghost var prev := added;
      var pt := types[k];
      if IsPromotable(pt) {
        var m := Move(s1, s2, pt, {});
        if isValid(m, gs) {
          added := added + [Candidate(m, gs)];
        }
      }
      PromoStep(gs, s1, s2, types, k, isValid, prev, added);
      k := k + 1;
    }
    moves' := moves + added;
  }

  /** One step of the promotion loop keeps its invariant. */
  lemma PromoStep(gs: GameState, s1: Square, s2: Square, types: seq<PieceType>, k: nat, isValid: (Move, GameState) -> bool, prev: seq<Candidate>, next: seq<Candidate>)
    requires k < |types|
    requires prev == Passing(PromoCandidates(gs, s1, s2, types, k), isValid)
    requires if IsPromotable(types[k]) && isValid(Move(s1, s2, types[k], {}), gs)
      then next == prev + [Candidate(Move(s1, s2, types[k], {}), gs)] else next == prev
    ensures next == Passing(PromoCandidates(gs, s1, s2, types, k + 1), isValid)
  {
    var c := Candidate(Move(s1, s2, types[k], {}), gs);
    var before := PromoCandidates(gs, s1, s2, types, k);
    if IsPromotable(types[k]) {
      PassingSnoc(before, c, isValid);
    } else {
      assert PromoCandidates(gs, s1, s2, types, k + 1) == before;
    }
  }

  // ---------------------------------------------------------------------------------------
  // What the enumeration proposes

  /** The shape of a candidate for its origin and destination: a promotable type checked
      against the full state when a pawn heads for the first or last rank, otherwise no
      promotion checked against board and turn only. */
  predicate CandidateShape(gs: GameState, c: Candidate) {
    && c.move.tags == {}
    && (if CouldPromo(gs.board[c.move.s1], c.move.s2)
        then IsPromotable(c.move.promo) && c.state == gs
        else c.move.promo == NoPieceType && c.state == BareState(gs))
  }

  lemma {:induction false} PromoCandidatesMembers(gs: GameState, s1: Square, s2: Square, types: seq<PieceType>, k: nat, c: Candidate)
    requires k <= |types|
    ensures c in PromoCandidates(gs, s1, s2, types, k) <==>
      c.move.s1 == s1 && c.move.s2 == s2 && c.move.tags == {} && c.state == gs &&
      IsPromotable(c.move.promo) && c.move.promo in types[..k]
  {
    if k > 0 {
      PromoCandidatesMembers(gs, s1, s2, types, k - 1, c);
      assert types[..k] == types[..k - 1] + [types[k - 1]];
    }
  }

  lemma PairCandidatesMembers(gs: GameState, s1: Square, s2: Square, c: Candidate)
    ensures c in PairCandidates(gs, s1, s2) <==>
      c.move.s1 == s1 && c.move.s2 == s2 && CandidateShape(gs, c)
  {
    PromoCandidatesMembers(gs, s1, s2, PieceTypes, |PieceTypes|, c);
    assert PieceTypes[..|PieceTypes|] == PieceTypes;
  }

  lemma {:induction false} DestCandidatesMembers(gs: GameState, s1: Square, n: nat, c: Candidate)
    requires n <= 64
    ensures c in DestCandidates(gs, s1, n) <==>
      c.move.s1 == s1 && c.move.s2 < n && CandidateShape(gs, c)
  {
    if n > 0 {
      DestCandidatesMembers(gs, s1, n - 1, c);
      PairCandidatesMembers(gs, s1, n - 1, c);
    }
  }

  /** A candidate from one origin names that origin. */
  lemma DestCandidatesFrom(gs: GameState, s1: Square, c: Candidate)
    ensures c in DestCandidates(gs, s1, 64) ==> c.move.s1 == s1
  {
    DestCandidatesMembers(gs, s1, 64, c);
  }

  /** The candidates of the first i origins are those of each of them. */
  lemma {:induction false} OriginCandidatesIn(gs: GameState, origins: seq<Square>, i: nat, c: Candidate)
    requires i <= |origins|
    ensures c in OriginCandidates(gs, origins, i) <==>
      c.move.s1 in origins[..i] && c in DestCandidates(gs, c.move.s1, 64)
  {
    if i > 0 {
      OriginCandidatesIn(gs, origins, i - 1, c);
      DestCandidatesFrom(gs, origins[i - 1], c);
      TakeSnoc(origins, i);
    }
  }

  lemma OriginCandidatesMembers(gs: GameState, origins: seq<Square>, i: nat, c: Candidate)
    requires i <= |origins|
    ensures c in OriginCandidates(gs, origins, i) <==>
      c.move.s1 in origins[..i] && CandidateShape(gs, c)
  {
    OriginCandidatesIn(gs, origins, i, c);
    DestCandidatesMembers(gs, c.move.s1, 64, c);
  }

  /** validMoves proposes exactly the moves of pieces of the side to move, to any square, in
      the shape their destination calls for, and returns exactly those the validator accepts. */
  lemma ValidMovesMembers(gs: GameState, rules: Rules, c: Candidate)
    ensures c in Passing(Candidates(gs), rules.isValid) <==>
      gs.board[c.move.s1].Color() == gs.turn && CandidateShape(gs, c) && rules.isValid(c.move, c.state)
  {
    var origins := SquaresForColor(gs.board, gs.turn);
    PassingMembers(Candidates(gs), rules.isValid, c);
    OriginCandidatesMembers(gs, origins, |origins|, c);
    assert origins[..|origins|] == origins;
  }

  // ---------------------------------------------------------------------------------------
  // Outcome

  /** The color an outcome names as winner. */
  function Winner(o: Outcome): Color {
    match o
    case WhiteWon => White
    case BlackWon => Black
    case _ => NoColor
  }

  /** Whether some candidate of the state passes the validator. */
  predicate HasValidMove(gs: GameState, rules: Rules) {
    exists c :: c in Candidates(gs) && rules.isValid(c.move, c.state)
  }

  /** getOutcome: nothing without a king of the side to move; a stalemate draw when not in
      check and without a legal move; a checkmate won by the other color when in check and
      without a legal move; nothing otherwise. */
  function GetOutcome(gs: GameState, rules: Rules): (r: (Outcome, Method))
    ensures KingSquare(gs.board, gs.turn).None? ==> r == (NoOutcome, NoMethod)
    ensures r.1 == Stalemate <==>
      KingSquare(gs.board, gs.turn).Some? && !rules.inCheck(gs.board, gs.turn) && !HasValidMove(gs, rules)
    ensures r.1 == Checkmate <==>
      KingSquare(gs.board, gs.turn).Some? && rules.inCheck(gs.board, gs.turn) && !HasValidMove(gs, rules) &&
      gs.turn != NoColor
    ensures r.1 == Checkmate ==> Winner(r.0) == gs.turn.Other()
    ensures r.1 == Stalemate <==> r.0 == Draw
    ensures r.1 == NoMethod <==> r.0 == NoOutcome
  {
    if KingSquare(gs.board, gs.turn).None? then (NoOutcome, NoMethod)
    else
      var inCheck := rules.inCheck(gs.board, gs.turn);
      var valid := Passing(Candidates(gs), rules.isValid);
      var hasMove := |valid| > 0;
      assert hasMove <==> HasValidMove(gs, rules) by {
        if hasMove {
          PassingMembers(Candidates(gs), rules.isValid, valid[0]);
        } else {
          forall c | c in Candidates(gs) ensures !rules.isValid(c.move, c.state) {
            PassingMembers(Candidates(gs), rules.isValid, c);
          }
        }
      }
      if !inCheck && !hasMove then (Draw, Stalemate)
      else if inCheck && !hasMove then
        match gs.turn
        case White => (BlackWon, Checkmate)
        case Black => (WhiteWon, Checkmate)
        case NoColor => (NoOutcome, NoMethod)
      else (NoOutcome, NoMethod)
  }
}
