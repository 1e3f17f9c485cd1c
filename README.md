# Chess positions, FEN and move notation — a Dafny model

This project models the position and notation layer of a Go chess library. It covers:

- the `Position` record and its transition `Update`;
- the castling-rights bookkeeping and its FEN, Shredder-FEN and X-FEN printing;
- the 103-byte binary form of a position;
- the FEN decoder with its board, castling-field and en-passant validators (normal and Chess960 modes);
- the UCI, algebraic (SAN) and long-algebraic move notations;
- the older `GameState` of the copy of the library vendored under `chessimg`, with its string-based castling check, its outcome classification and its brute-force enumeration of legal moves.

The legal-move generator, the outcome status, the check test, the board update and the board's own text and binary forms live elsewhere in the library. Here they are the fields of an `Engine` value (and of `Rules` for the vendored copy), and every operation that needs them receives that value. Squares are numbered 8·rank + file (A1 = 0, H1 = 7, A8 = 56). The library's `NoSquare` is an absent `Option`.

The files:

- `types.dfy` (`Chess`): colors, pieces, squares, moves and square names.
- `castling.dfy` (`Castling`): rights, `CanCastle`, their printing and their update after a move.
- `position.dfy` (`Positions`): `Update`, the en-passant rule, the FEN and X-FEN printers and `samePosition`.
- `positionobject.dfy` (`PositionObjects`): the in-place parts of `Position`, namely the move cache and `UnmarshalBinary`.
- `binary.dfy` (`PositionBinary`): `MarshalBinary` and its decoding.
- `seqs.dfy` (`Seqs`): small sequence facts the proofs share.
- `wrappers.dfy` (`Wrappers`): the Option and Result types.
- `text.dfy` (`Text`): trimming, splitting and joining, and integer text.
- `fenboard.dfy` (`FenBoards`): the board field of FEN.
- `fencastle.dfy` (`FenCastle`): the castling field.
- `fencastle960.dfy` (`FenCastle960`): what each Chess960 castling letter means, and the Chess960 rights read back from their Shredder-FEN text.
- `fen.dfy` (`Fen`): `decodeFEN` and the FEN round trip.
- `xfen.dfy` (`XFen`): X-FEN text read back in Chess960 mode.
- `notation.dfy` (`Notation`) and `notation_roundtrip.dfy` (`NotationRoundTrip`): the notations and their round trips.
- `gamestate.dfy` (`GameStates`): the vendored game state.

Where the source has loops or mutates state, the model has `while` loops or a class, each proved equal to a specification function. The properties the library promises are then lemmas about those functions.

## Model

| member | source | states |
|---|---|---|
| Castling.CanCastle | position.go:50-65 | true only for White or Black and the king or queen side; for each of the four pairs it is exactly the stored flag |
| Castling.NormalRightsOrder | position.go:70-104 | in normal mode the rights text is "-" exactly when no right is held, and otherwise its letters are in K, Q, k, q order |
| Castling.NormalRightsLetters | position.go:70-104 | in normal mode each of K, Q, k, q appears in the text exactly when its right is held |
| Castling.ShredderRightsString | position.go:70-104 | in Chess960 mode the text is, in the order White h-side, White a-side, Black h-side, Black a-side, the rook file's letter for each held right with a known file (upper-case for White, lower-case for Black) and nothing else; "-" exactly when no letter is written |
| Castling.UpdateCastleRights | position.go:494-534 | each of the four rights is held afterwards exactly when it was held before and the move does not lose it (the color's king moves, or the move starts or ends on that right's rook square), so every other right is kept; the mode and both rook starting files never change |
| Castling.ClearLostRights | position.go:494-534 | the step-by-step clearing of the four flags computes exactly UpdateCastleRights |
| Castling.RightsOnlyShrink | position.go:494-534 | a move never grants a right that was not held |
| Castling.KingMoveClearsBothRights | position.go:520-531 | moving a color's king clears both of its rights |
| Castling.QuietMoveKeepsRights | position.go:494-534 | a move by a non-king that touches no rook starting square leaves the rights unchanged |
| Positions.UpdateEnPassantSquare | position.go:536-551 | a square exactly when a pawn goes from rank 2 to rank 4 with White to move, or from rank 7 to rank 5 with Black to move (the pawn's color is not checked); it is on the destination's file, on rank 3 for White and rank 6 for Black |
| Positions.DoublePushPassesOver | position.go:536-551 | after a double pawn push the en-passant square is the square passed over |
| Positions.Update | position.go:134-158 | the turn flips; the move count rises by one exactly after Black's move; the half-move clock resets on a pawn move or a capture and otherwise rises by one; inCheck equals the Check tag; the en-passant square, rights and board are the updated ones |
| Positions.FullMoveAfterTwoPlies | position.go:134-158 | two moves from a position with a side to move raise the move count by exactly one |
| Positions.HalfMoveClockCountsQuietMoves | position.go:141-146 | over a run of non-capturing, non-pawn moves the half-move clock rises by the number of moves |
| Positions.EnPassantField | position.go:207-210 | "-" exactly for no square; otherwise the square's name, which parses back to it |
| Positions.PositionStringFields | position.go:203-212 | the FEN text splits back into its six fields when the board text has no space |
| Positions.SamePositionEquivalence | position.go:553-558 | samePosition is reflexive, symmetric and transitive |
| Positions.SamePositionIgnoresClocks | position.go:553-558 | samePosition ignores both clocks and the check flag |
| Positions.XFENCastle | position.go:221-264 | the X-FEN castling loop with its rook scans computes XFENCastleField |
| Positions.ScanUp | position.go:224-229 | the upward scan finds a piece exactly when one stands in the range |
| Positions.ScanDown | position.go:234-239 | the downward scan finds a piece exactly when one stands in the range |
| Positions.KingSideLetter | position.go:222-231 | a king-side letter is the bare K/k, or the file letter when a rook of that color stands beyond the stored file |
| Positions.QueenSideLetter | position.go:232-241 | the same for the queen side, scanning towards the a-file |
| Positions.XFENBareLetters | position.go:221-264 | with no rook beyond any stored file, the Chess960 X-FEN field is the normal K, Q, k, q text |
| Positions.XFENFileLetters | position.go:221-264 | with a rook beyond every stored file of a held right, the X-FEN field is the Shredder file letters |
| Positions.XFENEnPassant | position.go:265-296 | the loop over the two adjacent files computes XFENEnPassantField |
| Positions.XFENEnPassantHidesOnly | position.go:265-296 | the X-FEN en-passant field is the square exactly when a pawn of the side to move stands beside it; otherwise "-" |
| Positions.XFENString | position.go:216-298 | X-FEN is the six fields joined by spaces, with the X-FEN castling and en-passant fields; in Chess960 mode without rights the castling field is left empty |
| Positions.XFENAgreesWithFEN | position.go:216-298 | in normal mode, with a capturing pawn beside any en-passant square, X-FEN equals the FEN text |
| Positions.XFENCastleText | position.go:221-264 | the corrected castling field is never empty and agrees with the as-written field whenever that is non-empty |
| PositionObjects.PositionObject.ValidMoves | position.go:161-167 | the cached moves when there are some, otherwise the generator's, which are then cached; the position never changes, and a valid cache returns exactly the generator's moves |
| PositionObjects.PositionObject.UnmarshalBinary | position.go:410-480 | on a readable buffer the fields become the decoded position; on an error nothing changes; the cache is left as it was |
| PositionBinary.FlagByte | position.go:337-346 | each of the seven flag bits is set exactly when its right, Black to move, an en-passant square or Chess960 mode holds |
| PositionBinary.FlagBits | position.go:384-405 | setting the bits one at a time computes FlagByte |
| PositionBinary.MarshalBinary | position.go:348-407 | the bytes written are EncodeBinary: the board's bytes, then 7 bytes |
| PositionBinary.RookFileByte | position.go:366-377 | 255 exactly for an unknown rook file |
| PositionBinary.EnPassantByte | position.go:362-364 | 255 exactly for NoSquare |
| PositionBinary.DecodeBinary | position.go:410-480 | any buffer that is not 103 bytes is an error; a decoded position has clocks below 256 and 65536, a side to move, and inCheck from the check test |
| PositionBinary.BinaryRoundTrip | position.go:348-480 | decoding what was encoded restores board, turn, rights, mode, rook files and en-passant square, with the clocks modulo 256 and 65536 |
| PositionBinary.BinaryEncodingStable | position.go:348-480 | encoding the restored position gives the same bytes again |
| Fen.DecodeFEN | fen.go:15-63 | a text that does not trim and split into six fields is rejected; an accepted one has a valid board, turn "w"/"b", parsed rights and en-passant square, half-move clock ≥ 0, move count ≥ 1, and the side not to move is not in check |
| Fen.DecodeFENAfterBoard | fen.go:15-63 | once the board field is read, the board has both kings and decoding depends only on the other five fields |
| Fen.DecodeFENSound | fen.go:15-63 | a decoded position has both kings, no pawn on rank 1 or 8, a turn that prints back as its field, rights backed by king and rook squares in either mode, a plausible en-passant square and the clocks as read |
| Fen.FENRoundTrip | fen.go:15-63 | decoding the FEN text of a recordable normal-mode position gives back the position |
| Fen.FieldsDecode | fen.go:24-62 | the six fields of a recordable position decode, after the board, to that position |
| Fen.TurnFromName | fen.go:25-28 | a turn exactly for "w" and "b", and it prints back as its name |
| Fen.TurnNameRoundTrip | fen.go:25-28 | every color with a turn name reads back from it |
| Fen.FormEnPassant | fen.go:354-372 | an accepted square is plausible: on rank 3 with Black to move and a White pawn on rank 4 of its file, or on rank 6 with White to move and a Black pawn on rank 5; no square only for "-" |
| Fen.FormEnPassantAccepts | fen.go:354-372 | "-" gives no square; a field gives a square exactly when it names one and it is plausible; an unparseable field or one off ranks 3 and 6 is the bad-square error |
| Fen.EnPassantRoundTrip | fen.go:354-372 | the printed en-passant field of a plausible square, or "-", reads back |
| FenBoards.FenFormRank | fen.go:92-114 | the loop with its running file count and map computes FormRank |
| FenBoards.FormRankExpands | fen.go:92-114 | a rank is accepted exactly when it has only piece letters and digits and expands to 8 files; each piece sits on its file |
| FenBoards.FenBoard | fen.go:66-90 | the loop over the 8 ranks computes FenBoardSpec |
| FenBoards.FenBoardPlacement | fen.go:66-90 | field i of an accepted board gives rank 7 − i, file by file as the rank expands |
| FenBoards.FenBoardNoBackRankPawns | fen.go:75-77 | an accepted board has no pawn on rank 1 or 8 |
| FenBoards.FenBoardHasKings | fen.go:68-70 | an accepted board has a White and a Black king |
| FenBoards.FenBoardChars | fen.go:66-114 | an accepted board text holds only '/', piece letters and digits |
| FenCastle.HasDuplicateCharacters | fen.go:327-336 | the loop over a growing set finds a duplicate exactly when some character repeats |
| FenCastle.HasOnlyKQkq | fen.go:337-344 | the loop answers exactly whether every character is K, Q, k or q |
| FenCastle.FormCastleRights | fen.go:116-325 | the character loop with its rook scans computes FormCastleRightsSpec, whose Chess960 letters are characterised by FenCastle960.RookLetterRules and FenCastle960.FileLetterRules |
| FenCastle.FindRookDown | fen.go:178-195 | the scan from the h-file towards the king returns the first rook of the color it meets, as FirstRookDown: the highest square above the king holding that rook, with none between it and the start, and nothing exactly when no square between the king and the start holds it |
| FenCastle.FindRookUp | fen.go:196-211 | the scan from the a-file towards the king returns the first rook of the color it meets, as FirstRookUp: the lowest square below the king holding that rook, with none between the start and it, and nothing exactly when no square between the start and the king holds it |
| FenCastle.FirstRookDown | fen.go:182-190 | the result holds the rook, lies above the king and at most the start, has no rook above it up to the start, and is absent exactly when no square in that range holds the rook |
| FenCastle.FirstRookUp | fen.go:199-207 | the result holds the rook, lies at least the start and below the king, has no rook below it down to the start, and is absent exactly when no square in that range holds the rook |
| FenCastle.ScanDownRank | fen.go:182-190 | on the king's rank, the downward scan from the h-file corner finds the outermost rook right of the king, and finds nothing exactly when no rook of that color stands right of the king |
| FenCastle.ScanUpRank | fen.go:199-207 | on the king's rank, the upward scan from the a-file corner finds the outermost rook left of the king, and finds nothing exactly when no rook of that color stands left of the king |
| FenCastle.KingRookFile | fen.go:182-190 | a file found by the scan from the h-file down to the king lies right of the king and holds a rook of that color on its home rank |
| FenCastle.KingRookFileOutermost | fen.go:182-190 | the file the K letter takes is that of the outermost rook of the color right of the king on its home rank, and there is none exactly when no such rook exists |
| FenCastle.QueenRookFile | fen.go:199-207 | a file found by the scan from the a-file up to the king lies left of the king and holds a rook of that color on its home rank |
| FenCastle.QueenRookFileOutermost | fen.go:199-207 | the file the Q letter takes is that of the outermost rook of the color left of the king on its home rank, and there is none exactly when no such rook exists |
| FenCastle.WithRight | fen.go:178-239 | recording a right sets that color's flag for that side and that side's rook file, and keeps every other flag, the other side's file and the mode |
| FenCastle.CastleCharStep | fen.go:167-322 | one character of the Chess960 loop: an upper-case letter is read against the White king, a lower-case one against the Black king, anything else is an error, as CastleStep |
| FenCastle.ColorCharStep | fen.go:167-242 | the king must be on its home rank, off the a- and h-files and on the file already recorded; then K, Q, a file letter or an error, as ColorStep |
| FenCastle.RookCharStep | fen.go:178-211 | K or Q: a right given twice is an error, a scan that finds no rook is an error, otherwise the right is claimed with the rook's file, as RookLetter |
| FenCastle.FileCharStep | fen.go:212-239 | a file letter right of the king claims the king side, left of it the queen side, on the king's own file it is an error, and a missing rook is an error, as ShredderFileLetter |
| FenCastle.NormalRightsDecode | fen.go:126-163 | a normal-mode field is accepted exactly when it is "-" or 1–4 distinct letters from KQkq each backed by king and rook on their home squares; the rights are the letters present |
| FenCastle.NormalRightsRoundTrip | fen.go:126-163 | the printed normal-mode rights of a backed position read back to themselves |
| FenCastle.NineSixtyRightsSound | fen.go:164-325 | accepted Chess960 rights: each color's king on its home rank off the a- and h-files, both kings on one file when both colors castle, and every stored rook file holding a rook of that color on the right side of the king |
| FenCastle.CastleFoldSound | fen.go:166-323 | the per-character Chess960 parse keeps that soundness invariant |
| FenCastle960.RookFileChar | position.go:70-104 | the Shredder-FEN letter of a file is A–H for White and a–h for Black, and its offset from 'A' or 'a' is the file |
| FenCastle960.OutermostUnique | fen.go:182-207 | on one side of the king there is only one outermost rook of a color |
| FenCastle960.RookLetterRules | fen.go:178-211 | K or Q (k or q for Black), with the king accepted: a right given twice is rejected; otherwise the letter is rejected with NoRookFound exactly when no rook of the color stands on that side of the king; otherwise, for the outermost such rook, a side already recording another file is a conflict and else the right is recorded with that rook's file and the king's file; an accepted letter always records the outermost rook |
| FenCastle960.FileLetterRules | fen.go:212-239 | a file letter, with the king accepted: on the king's file it is rejected; right of the king it names the king side and left of it the queen side; a right given twice, a file without the color's rook on the home rank and a side recording a different file are rejected; otherwise the right is recorded with that file and the king's file |
| FenCastle960.CastleFoldShift | fen.go:166-323 | reading a concatenation past its first part is reading the second part |
| FenCastle960.CastleFoldAppend | fen.go:166-323 | reading a concatenation reads the first part, then the second from the state the first leaves |
| FenCastle960.CastleFoldAppendErr | fen.go:166-323 | when the first part is rejected the concatenation is rejected with the same error |
| FenCastle960.PartStep | fen.go:212-239 | the letter of a backed right, read when that right is new, the king file unset or the king's and the side's rook file unset or the same, records exactly that right |
| FenCastle960.AppendSlot | position.go:70-104 | appending the letter of the next right keeps the letters in strictly rising slots |
| FenCastle960.SlotsRiseDistinct | fen.go:132-134 | letters in strictly rising slots never repeat |
| FenCastle960.PartSlot | position.go:70-104 | a backed right's letter is one file letter in the slot of its color and side |
| FenCastle960.SlotsOfParts | position.go:70-104 | the four per-right letters, each in its own slot from 0 to 3, join into file letters whose slots strictly rise |
| FenCastle960.LettersOf | fen.go:129-135 | the Shredder-FEN text of backed rights has one to four one-byte letters, none repeated, and is not "-" |
| FenCastle960.ShredderFacts | fen.go:129-135 | letters in rising slots pass the length and duplicate checks and are not "-" |
| FenCastle960.RightsStringParts | position.go:70-104 | the Chess960 castling text is the four per-right letters in order, or "-" when there are none |
| FenCastle960.SpecOfFold | fen.go:126-136 | a field other than "-" passing the length and duplicate checks decodes in Chess960 mode to the rights the character loop ends with |
| FenCastle960.FoldParts | fen.go:164-325 | the character loop reads the four letters of backed rights one right at a time and ends with exactly those rights |
| FenCastle960.NineSixtyRightsRoundTrip | fen.go:116-325 | Chess960 rights whose every right is backed by its rook on the correct side of a king on its home rank off the corner files, whose kings share a file when both colors may castle, and which record a rook file exactly for the sides some color may castle to, print to a castling field that decodes back to exactly those rights |
| GameStates.CanCastleText | chessimg/vendor/github.com/loganjspears/chess/game_state.go:23-32 | true exactly when the rights text holds K/Q for White or k/q for Black, on the king or queen side |
| GameStates.CanCastleTextAgrees | chessimg/vendor/github.com/loganjspears/chess/game_state.go:23-32 | on normal-mode rights text it agrees with Castling.CanCastle for both colors and sides |
| GameStates.StateFields | chessimg/vendor/github.com/loganjspears/chess/game_state.go:68-77 | six fields; the third is the rights text; the fourth is "-" exactly when there is no en-passant square |
| GameStates.StateStringFields | chessimg/vendor/github.com/loganjspears/chess/game_state.go:68-77 | the printed state splits back into its six fields |
| GameStates.StateStringAgrees | chessimg/vendor/github.com/loganjspears/chess/game_state.go:68-77 | the vendored printer prints a position as the newer FEN printer does |
| GameStates.SameStateEquivalence | chessimg/vendor/github.com/loganjspears/chess/game_state.go:149-154 | samePosition is an equivalence that ignores both clocks |
| GameStates.SameStringSameState | chessimg/vendor/github.com/loganjspears/chess/game_state.go:149-154 | states printing the same text are the same position |
| GameStates.SquaresForColor | chessimg/vendor/github.com/loganjspears/chess/game_state.go:123 | a square is listed exactly when it holds a piece of the color |
| GameStates.ValidMoves | chessimg/vendor/github.com/loganjspears/chess/game_state.go:121-147 | the three nested loops return exactly the candidates passing the validator, in enumeration order |
| GameStates.AddMovesFrom | chessimg/vendor/github.com/loganjspears/chess/game_state.go:126-144 | the destination loop appends the passing candidates of one origin, in order |
| GameStates.AddPromotions | chessimg/vendor/github.com/loganjspears/chess/game_state.go:128-137 | the promotion loop appends the passing promotions, in piece-type order |
| GameStates.PassingMembers | chessimg/vendor/github.com/loganjspears/chess/game_state.go:132-134 | a candidate is kept exactly when it is proposed and the validator accepts it |
| GameStates.PassingAppend | chessimg/vendor/github.com/loganjspears/chess/game_state.go:121-147 | filtering distributes over the concatenated loops |
| GameStates.PromoCandidatesMembers | chessimg/vendor/github.com/loganjspears/chess/game_state.go:128-137 | the promotion candidates are one per promotable type, with the full state and no tags |
| GameStates.PairCandidatesMembers | chessimg/vendor/github.com/loganjspears/chess/game_state.go:127-143 | a pawn heading for rank 1 or 8 gets promotable types checked against the full state; any other pair one candidate without promotion checked against board and turn only |
| GameStates.OriginCandidatesIn | chessimg/vendor/github.com/loganjspears/chess/game_state.go:123-146 | the candidates from the first i origins are exactly those whose origin is among them and which that origin's destination loop proposes |
| GameStates.ValidMovesMembers | chessimg/vendor/github.com/loganjspears/chess/game_state.go:121-147 | a move is valid exactly when its origin holds a piece of the side to move, it has the candidate shape, and the validator accepts it |
| GameStates.GetOutcome | chessimg/vendor/github.com/loganjspears/chess/game_state.go:101-119 | no king gives no outcome; stalemate and a draw exactly when not in check with no valid move; checkmate exactly when in check with no valid move and a side to move, and then the other color wins; otherwise no outcome |
| Notation.CharFromPieceType | notation.go:248-262 | empty exactly for pawns and no type; otherwise one of K, Q, R, B, N |
| Notation.PieceTypeFromChar | notation.go:264-276 | a type exactly for "q", "r", "b", "n", and always a promotable type or none |
| Notation.PieceTypeLetters | notation.go:248-276 | each promotable type reads back from its lower-case letter, which is the upper-case piece letter shifted by 32 |
| Notation.CharForPromo | notation.go:240-246 | empty exactly when the type has no letter; otherwise "=" and the letter |
| Notation.UCIEncode | notation.go:43-45 | origin name then destination name, and exactly four characters when there is no promotion letter |
| Notation.UCIParse | notation.go:49-67 | a byte length outside 4–5 is the length error; a parsed move has no tags and a promotable type or none |
| Notation.UCIParseEncode | notation.go:43-67 | every accepted text prints back exactly |
| Notation.UCIEncodeParse | notation.go:43-67 | every move without promotion or with a promotable type reads back from its text, without tags |
| Notation.FirstNamed | notation.go:72-79 | the first legal move whose text is the name, or none exactly when no legal move has that text |
| Notation.UCIDecode | notation.go:48-80 | the parse-then-search loop computes UCIDecodeSpec |
| Notation.UCIDecodeLegal | notation.go:68-79 | with a position the result is a legal move whose text is the input, and the not-legal error comes exactly when no legal move prints as the parsed text |
| Notation.CheckChar | notation.go:193-202 | "" exactly without the Check tag; "#" exactly with it when the next position is checkmate; otherwise "+" |
| Notation.FormS1 | notation.go:204-238 | the flag-setting loop over the legal moves computes OriginText |
| Notation.OriginTextDistinguishes | notation.go:204-238 | for a non-pawn, each rival move with the same piece and destination differs from the move in a file or rank that the origin text shows |
| Notation.OriginTextMinimal | notation.go:204-238 | without a rival the origin text is empty |
| Notation.CaptureText | notation.go:105-110 | "x" only for a capture or en-passant move, and nothing otherwise |
| Notation.MoveText | notation.go:94-113 | castling moves are "O-O" or "O-O-O" plus the check mark, whatever the squares |
| Notation.LongAlgebraicOrigin | notation.go:155-174 | long algebraic writes the piece letter and then the full origin square |
| Notation.PawnCaptureText | notation.go:101-113 | an algebraic pawn capture is the origin file, "x", the destination, any promotion and the check mark |
| Notation.Encode | notation.go:94-113 | the encoder, with its call to formS1, computes MoveText in both styles |
| Notation.Sanitize | notation.go:278-282 | no '!' or '?' remains, every other character is kept, and a text without them is unchanged |
| Notation.RemoveAppend | notation.go:278-282 | removing a character from a concatenation removes it from each part, so the kept characters stay in order and in number |
| Notation.SanitizeAppend | notation.go:278-282 | sanitizing a concatenation sanitizes each part in place; with Sanitize's own contract on single characters this fixes the result character by character |
| Notation.SanitizeAnnotationsOnly | notation.go:278-282 | a text of '!' and '?' alone sanitizes to the empty text |
| Notation.SanitizeStripsAnnotations | notation.go:278-282 | annotations after a move text without '!' or '?' are stripped and leave exactly that text |
| Notation.Variants | notation.go:284-290 | the text, the text with "+", and the text with "#", in that order |
| Notation.FirstEncoded | notation.go:130-139 | over the legal moves' texts, the index of the first text that is one of the variants, with no variant before it, or none exactly when no text is a variant |
| Notation.MatchesVariant | notation.go:132-137 | the inner loop finds a match exactly when the move's text is one of the variants |
| Notation.Decode | notation.go:126-140 | the nested search loop computes DecodeSpec, for both styles |
| Notation.DecodeLegal | notation.go:126-140 | a decoded move is legal, its encoding is the sanitized text, plus nothing, "+" or "#", and no legal move before it matches; the not-legal error comes exactly when no legal move encodes to any variant |
| NotationRoundTrip.SanitizeMoveText | notation.go:278-282 | move texts contain no '!' or '?', so sanitizing leaves them unchanged |
| NotationRoundTrip.VariantSameBody | notation.go:284-290 | a move text that is a variant of another has the same body before the check mark |
| NotationRoundTrip.BodyDetermines | notation.go:94-113 | among well-formed, distinct legal moves, the body of the text identifies the move, for long algebraic, for non-pawn moves and for castling |
| NotationRoundTrip.DecodeFindsBody | notation.go:126-140 | decoding the text of a legal move finds a legal move with the same body |
| NotationRoundTrip.DecodeEncode | notation.go:94-190 | decoding the encoding of a legal move gives the move back, for long algebraic, for non-pawn moves and for castling |
| NotationRoundTrip.DecodeEncodePawn | notation.go:101-140 | the algebraic encoding of a pawn move decodes to a legal pawn move with the same destination, promotion and capture-ness, and the same origin file when capturing |
| NotationRoundTrip.MoveNameInjective | notation.go:43-45 | the UCI text of a move that does not promote to a pawn gives back origin, destination and promotion |
| NotationRoundTrip.UCIDecodeEncode | notation.go:43-80 | with a position, the UCI text of a legal move without promotion, or promoting to Q, R, B or N, decodes back to that move with its tags |
| XFen.XFENWithoutRightsRejected | fen.go:129-131 | the as-written X-FEN text of a Chess960 position without rights is rejected by decodeFEN with the castling-length error |
| XFen.NoRightsFieldsDecode | fen.go:126-128 | the six fields of such a position with "-" as castling field decode to it with no rights |
| XFen.XFENWithoutRightsRoundTrip | fen.go:126-128 | with "-" as its castling field, that position decodes back, with no rights and no rook files |

## Left out

- The legal-move generator, the outcome status, the check test, the board update, and the board's FEN placement text and 96-byte binary form are not part of this model. They are the fields of `Engine` (and of `Rules` for the vendored copy), with no properties assumed beyond those stated as hypotheses.
- `isInCheck` is modelled on board and side to move. `UnmarshalBinary` and `decodeFEN` call it on a position whose other fields do not matter to it.
- `Position.Hash` is left out: it is an MD5 digest from a foreign library.
- `MarshalText` and `UnmarshalText` of both `Position` and `GameState` are left out. They are thin wrappers over the printers and `decodeFEN`, which are modelled.
- The regular expression `pgnRegex` / `algebraicNotationParts` is left out because `Decode` does not use it. The unused `hasSomeKQkq` is left out too.
- Error messages are modelled as kinds only. For example, the "101 bytes" message of `UnmarshalBinary` is the `WrongLength` kind.
- The thread safety of the move cache is not modelled.
- `CastleRights.copy` and `Position.copy` are not separate operations, because positions and rights are immutable values here.
- Go's `int` is unbounded: no 64-bit overflow of the clocks, and `strconv.Atoi` has no range limit.
- PositionBinary.DecodeBinary: a rook-file byte other than 0–7 or 255, or an en-passant byte 64–254 with the en-passant bit set, is an error. The library would store an out-of-range value instead.
- PositionObjects.PositionObject.UnmarshalBinary: the extra errors of DecodeBinary are checked before any field is written. In the library, a failure can only come from the length or the board, and both are checked before any write.
- GameStates.ValidMoves: the order in which the vendored `squaresForColor`, `allSquares` and `PieceTypes()` list their elements is not part of this model. They are taken to be increasing squares and King, Queen, Rook, Bishop, Knight, Pawn.
- FenCastle.IsUpper and FenCastle.IsLower accept only the ASCII letters, where the library uses `unicode.IsUpper` and `unicode.IsLower`. For a non-ASCII letter such as 'É' the library first checks the king's rank and file and only then reports an unknown character, so the error kind can differ; whether a field is accepted does not.
- The library's `runeToFileMap` is not part of this model. It is taken to map A–H and a–h to files 0–7.
- GameStates.SameStringSameState holds because en-passant squares are compared by value; see the next line.
- GameStates.SameState: the vendored `samePosition` compares the addresses of the two en-passant squares. It is modelled as comparing the squares themselves.
- The vendored `decodeFEN` and board code are not part of this model.
- NotationRoundTrip.DecodeEncode, NotationRoundTrip.UCIDecodeEncode and NotationRoundTrip.BodyDetermines require two things of the generator's moves, since the generator is not modelled. They require `LegalMovesWellFormed`: each move moves a piece of the side to move and never promotes to a pawn. They require `LegalMovesDistinct`: origin, destination and promotion identify a move, and at most one move castles to each side.
- NotationRoundTrip.DecodeEncodePawn is weaker than an exact round trip. Two legal pawn moves can share an algebraic text; an example is non-capturing pushes from different ranks, which the generator never produces together. So only the destination, promotion, capture-ness and capturing file are shown to be recovered.
- Notation.Decode: each legal move is encoded once and its text compared with every variant. The library re-encodes the move for each variant; this gives the same text because encoding has no side effects.
- NotationRoundTrip.UCIDecodeEncode covers only moves without promotion or with a promotable type. A move promoting to a king would print a letter that `pieceTypeFromChar` rejects.
- PositionBinary.BinaryRoundTrip takes the board codec's own round trip as a hypothesis, `BoardCodecSound`.

## Findings

| source | as written | input that shows it | evidently intended | confidence | as-written member | corrected member |
|---|---|---|---|---|---|---|
| position.go:221-264 | `XFENString` in Chess960 mode writes one letter per held right and nothing else, so a position without castling rights gets an empty castling field; `decodeFEN` (fen.go:129-131) rejects a castling field of length 0 | any Chess960 position with no castling rights, e.g. after both kings have moved: its X-FEN text has two adjacent spaces where the castling field belongs and does not decode | an empty set of rights is written "-", as the FEN printer does, so that X-FEN text reads back | not executed | XFen.XFENWithoutRightsRejected | XFen.XFENWithoutRightsRoundTrip |
