# A verified model of the score-sheet and PGN core

The repository turns photographs of chess score sheets into verified PGN games: a model reads the
sheet, the server reconciles the reads with the rules of chess, a user corrects the draft in the
browser, the server replays the result before it is saved, and games are exported and imported as
PGN. Around this sit an engine pool, a browser engine client, a rate limiter and a position editor.
This project models that logic in Dafny and proves what it promises. `dafny verify dfyconfig.toml`
checks all of it.

## How the model is built

- **Modules follow the source.** `Movetext`, `Clock`, `MovetextWriter`, `PgnTags`, `PgnWriter`,
  `PgnParser`, `PgnRoundTrip`, `ParsedGames` and `LineComments` are `chesskit/pgn.go`; `SanMoves` is `chesskit/san.go`;
  `EditDistance`, `MatchLegal`, `Reconciliation` and `Ambiguity` are
  `internal/recognition/postprocess.go`; `Review` is `web/src/lib/chess.ts` with the list edits of
  `ReviewWorkbench.tsx`; `SaveGate` is `internal/httpapi/games.go`; `Agreement` ties these together, and
  `SavedGames` reads back what the gate exports;
  `EnginePool`, `EngineClient`, `RateLimit`, `Salvage`, `BoardField` and `Positions` are the engine
  pool, the browser engine client, the limiter, the salvage scanner, the board codecs and the grid
  assembly. `Text`, `Sorting` and `ChessRules` are shared vocabulary.
- **Loops stay loops.** A method with the source's loop is proved equal to a specification function,
  and the promises are lemmas about that function. A long loop body or inner loop is a method of its
  own, so that each proof stays small.
- **Each specification function has a description that does not use it.** `MovetextGrammar`,
  `MoveComments`, `TagGrammar` and `GameSplit` say by grammars and line kinds what the parser reads,
  `WrittenLayout` what the writer writes, `LooseSpelling` which legal moves a spelling means, `Decisions` what
  a draft makes of a token, `PageEntries` what the review page shows and its edits change, `SavedPlies` what
  the save gate records, `SalvagedMoves` which texts are salvaged, and `CanonicalRanks`, `Orientation` and
  `GridLegality` what becomes of a grid: in terms of the input's characters, squares, tokens and legal moves.
- **The chess libraries are an oracle.** `ChessRules.Rules` bundles the calls the program makes
  (read and write a FEN, side to move, legal moves, encode, decode, play). `ChessRules.Lawful` lists
  what is relied on: a written FEN reads back and names its side to move; legal moves have
  well-formed notation, distinct after check marks are stripped; playing one passes the turn; decoding
  inverts encoding, yields legal moves only, and rejects "?" and negative move numbers. `ChessRules.BoardLaw`, used for the position
  editor alone, says that reading and writing a FEN keeps a board field in the encoders' form.
  `ChessRules.ToyLawful`, `ChessRules.LoneLawful` and `ChessRules.ToyKeepsBoard` show that the laws can be met,
  `Ambiguity.ToyAmbiguity` that ambiguity occurs under them, `PgnRoundTrip.ToyGame` that canonical games
  exist, and `Positions.ToyIsSane` that positions are accepted. `Agreement.SharedRules` says that the browser's library accepts the same FENs
  and plays the same moves as the server's; `Agreement.MirrorShares` shows that it can hold.
- **Text.** A `char` is one byte of a Go string, one rune in `Positions`, one code unit of a JavaScript
  string. Go's `int` is 64 bits wide and wraps where the source adds to it.
- **Parameters.** The translation of German notation and the decoding of one JSON object are
  parameters: any function of the right type.
- **Concurrency.** The engine pool and the engine client are transition systems. A channel operation, a
  mutex-guarded block and a callback are one step each; time-outs, cancellations and process failures
  are steps that may happen whenever the source allows them. Results hold for every state of every run.

## Findings

Where the code does not do what its comments or the PGN standard say, the code is followed, and a lemma
says exactly when it does.

- A `;` comment swallows the rest of its game: movetext lines are joined with spaces before they are
  scanned (`chesskit/pgn.go:114`), so the line end that would close the comment is gone.
  `LineComments.MoveLost` is a chunk of two lines that loses its second move. PGN section 5 is met if and
  only if the scanner would record nothing behind the line of the first such comment
  (`LineComments.CommentsEndExactly`), in particular where no movetext line holds a `;`
  (`LineComments.NoCommentNothingLost`).
- Lines of exactly 80 columns are written (`chesskit/pgn.go:475`), where PGN section 8.2.1 asks for
  fewer than 80. `MovetextWriter.WrapReaches80` is a game with such a line;
  `MovetextWriter.WrapMeetsStandard` says that the standard is met if and only if no part is that long and
  the filling up to 79 columns never turns down a part that would have made exactly 80.
- A written game comes back if and only if its header fits the tag grammar and names its start position,
  and its move numbers fit a 64-bit int (`ParsedGames.BundleComesBackExactly`): no line end in a tag value,
  no roster name or "Board" among the extra tags, no other FEN tag, no number beyond the largest int, which
  wraps (`chesskit/pgn.go:437`). `ParsedGames.LineEndLost`, `ParsedGames.ExtraTagLost` and
  `ParsedGames.NumberLost` are games that do not. What was parsed once can be written and parsed again if
  and only if its move numbers fit (`ParsedGames.Reparses`). For the written move tokens alone the same
  holds (`MovetextWriter.MovetextRoundTrip`, `MovetextWriter.OverflowExample`).
- The save gate exports the client's own spellings, and accepts more of them than the scanner gives back.
  An export is read as it was saved if and only if no header field holds a line end and the scanned moves
  replay the saved line (`SavedGames.SavedGameScans`). For spellings that are words this comes down to: the
  move numbers fit, and what each spelling is scanned as still resolves to the saved move
  (`SavedGames.SavedGameReads`), in particular for safe words, exactly the spellings that scanning gives
  back (`SavedGames.SafeGameReads`, `MovetextWriter.SafeWordsExactly`). "0-0" loses its first digit
  (`MovetextWriter.ZeroCastlingLost`), and the exported game is cut there unless the library decodes "-0"
  (`SavedGames.ZeroCastlingCuts`, `SavedGames.ZeroCastlingExample`). A spelling that starts with a semicolon,
  or with a parenthesis that nothing closes, cuts it too (`SavedGames.SemicolonCuts`,
  `SavedGames.SemicolonExample`, `SavedGames.ParenthesisCuts`). `SavedGames.EventLineEnd` is a failing header.
- The review page's save button and the save gate agree if and only if the list is not empty or the
  start position is readable (`Agreement.GateAgreesExactly`): an empty list from an unreadable FEN
  enables the button and is refused.
- The comment at `web/src/lib/chess.ts:129-130` says that "Nbd2" and "Nfd2" reduce to "Nd2". They do,
  but "Nd2" itself reduces to "N2": a read without origin reduces like its one-character disambiguations
  if and only if it is a capture (`Review.BareMoveSiblings`). A quiet "Nd2" is matched with exactly the
  bare quiet knight moves to the second rank, on any file (`Review.BareReadCandidates`), and so is called
  ambiguous with "Na2" and "Nc2" where both are legal (`Review.WrongFilesOffered`).
- The comment at `web/src/lib/chess.ts:147-148` says that everything after an illegal ply is marked
  illegal. Behind the first stop an entry is illegal if and only if its ply is no placeholder, and
  ambiguous otherwise (`Review.BehindStop`).
- A move dragged on the board with a ply selected replaces that ply ("Drag a piece to add or replace the
  selected move", `web/src/i18n/messages.ts:320`), but is read in the position behind it
  (`web/src/components/ReviewWorkbench.tsx:118-126`). Where nothing before that ply stopped the replay, the
  move is legal in its new place if and only if it can also be played in front of that ply; it can whenever
  that ply was not legal itself (`PageEntries.SelectedDrag`). A dragged move is selected at once, so the second of two drags replaces the first
  (`PageEntries.SecondDrag`): after "e4" and the answer "e5" the list is the illegal "e5" alone
  (`PageEntries.AnswerReplacesMove`).
- The comment at `chesskit/pgn.go:98-99` says that only an entirely empty chunk is dropped. A chunk is
  dropped if and only if it names no event, site or player, has no tag beyond date, round, board and result, no
  result in its movetext, and no first move that can be played from the standard position
  (`TagGrammar.DroppedExactly`); a lone date tag is dropped (`GameSplit.TagAloneDropped`).
- Up to the first stop the draft and the review page name the same side if and only if splitting the
  start FEN at spaces and into fields reads the same side; behind it the draft keeps the side of the stop
  while the page keeps alternating (`Agreement.SidesAgree`).
- `Close` is documented to terminate every live process (`internal/engine/stockfish.go:221`). When it is
  through, exactly those processes are live that were spawned since it began and that no step has taken off
  the live set since; so it leaves nothing live if and only if every process spawned meanwhile was taken off
  again (`EnginePool.CloseLeaves`), in particular without such a spawn (`EnginePool.QuietCloseLeavesNothing`),
  and not with a spawn as the last step (`EnginePool.SpawnOutlivesClose`). One that is being spawned outlives it
  (`EnginePool.LateSpawnSurvives`).
- The limiter is documented as a rolling window (`internal/store/ratelimit.go:8`). It is one if and only
  if the limit is at most one or windows have no length (`RateLimit.RollingExactly`): otherwise a stretch
  as long as the window admits up to 2 * limit - 1 requests, and no more (`RateLimit.SlidingBound`,
  `RateLimit.SlidingBoundReached`).

## Model

| member | source | states |
|---|---|---|
| `SanMoves.ResolveMove` | chesskit/san.go:86-127 | the loop over the legal moves computes `Resolve`: a decodable notation is that move, otherwise the only legal move of the same spelling, otherwise of the same signature; several are ambiguous, none is illegal |
| `SanMoves.ResolveEncoded` | chesskit/san.go:95-98 | the canonical notation of a legal move resolves to that move and is its own normal form |
| `SanMoves.ResolvedIsLegal` | chesskit/san.go:89-127 | whatever resolves is a legal move, and its returned notation is the canonical one |
| `SanMoves.ResolveTrimmed` | chesskit/san.go:21-33 | surrounding white space never changes what a notation resolves to |
| `SanMoves.PlaceholderIllegal` | chesskit/san.go:90-93 | the empty text and "?" resolve to nothing, through every branch of the search |
| `SanMoves.ResolveDecides` | chesskit/san.go:86-127 | the order of preference: what the library decodes; then the legal move of the same spelling, however many share its signature; then the only one of the same signature; several are ambiguous and none is illegal |
| `SanMoves.CastlingSpellings` | chesskit/san.go:19-33 | castling written with zeros, capitals or small letters, on either wing and with any check marks, resolves like its letter form |
| `SanMoves.CastlingRead` | chesskit/san.go:19-33 | a legal castling is found from every one of its spellings |
| `LooseSpelling.LooseResolves` | chesskit/san.go:35-127 | any text of a piece letter, anything, a square and a promotion that is neither decoded nor a legal move's own spelling means the one legal move of that piece, capture, square and promotion, whatever origin it names; several are ambiguous, none is illegal |
| `SanMoves.SignatureOfEncoded` | chesskit/san.go:35-84 | the signature of a legal move's notation is its piece, capture, destination and promotion, without origin and check mark |
| `SanMoves.ApplyMoves` | chesskit/san.go:188-206 | the positions, the error and the index of the first move that does not resolve, as fixed by the longest playable line |
| `SanMoves.WalkIsLongestLine` | chesskit/san.go:188-206 | the walk plays each move from the position before it and stops only where the next move does not resolve |
| `SanMoves.LongestLineUnique` | chesskit/san.go:188-206 | any list of positions with those two properties is the walk |
| `SanMoves.WalkPrefix` | chesskit/san.go:196-204 | walking a beginning of the moves gives the beginning of the walk |
| `Movetext.TokenizeMovetext` | chesskit/pgn.go:215-303 | the index-driven scanner computes the fold of its rounds over the text, and terminates on any text |
| `Movetext.StepLength` | chesskit/pgn.go:223-286 | every round of the scanner advances, and never beyond the end |
| `Movetext.SkipVariation` | chesskit/pgn.go:253-267 | a variation is skipped up to where its parentheses balance, or to the end |
| `Movetext.StripNumber` | chesskit/pgn.go:305-330 | the loops over digits and dots compute the word without its move number |
| `MovetextGrammar.ScanExactly` | chesskit/pgn.go:215-330 | on every text the scanner gives exactly what a grammar reads: blanks, words up to the next stop character, glyphs, brace and line comments, balanced variations, and what is left open at the end; a word is a result or a move behind its number, a comment goes to the last move |
| `MoveComments.BothCommentsStay` | chesskit/pgn.go:227-244 | two comments behind a move both stay with it |
| `MoveComments.VariationEnds` | chesskit/pgn.go:253-267 | a variation ends with the parenthesis that closes its own first one, however many are nested in it; one that is never closed takes the rest |
| `MoveComments.VariationLeavesNothing` | chesskit/pgn.go:253-267 | a variation with others nested in it leaves no trace |
| `Clock.ClockRoundTrip` | chesskit/pgn.go:332-342 | a written clock comment is read back as its seconds, negative times as zero |
| `Clock.ClockAtExactly` | chesskit/pgn.go:42-43 | a clock is read at the start of a text if and only if an annotation of that form stands there, as its seconds |
| `Clock.ClockIsFirst` | chesskit/pgn.go:332-342 | the clock of a comment is the first annotation anywhere in it, none if and only if there is none |
| `Clock.ClockAmidText` | chesskit/pgn.go:332-342 | a written clock is read back whatever stands around it, unless another annotation begins before it |
| `MoveComments.ClockedMoveRead` | chesskit/pgn.go:193-212 | a move whose comment has text before and behind its clock is parsed with that clock |
| `MovetextWriter.CountersRead` | chesskit/pgn.go:446-464 | a FEN that carries a move number gives that number and the side of its second field, one without its last fields gives number one |
| `MovetextWriter.NumberedMoves` | chesskit/pgn.go:422-441 | White's moves carry consecutive numbers from the start number on, Black's only the first of the game, each followed by its own clock, as long as the numbers fit a 64-bit int |
| `MovetextWriter.BuildMovetext` | chesskit/pgn.go:417-444 | the written movetext is the wrapped list of numbers, moves, clocks and result |
| `MovetextWriter.WrapMovetext` | chesskit/pgn.go:466-488 | the wrapping loop writes the lines of the greedy 80-column filling |
| `MovetextWriter.WrapKeepsParts` | chesskit/pgn.go:466-488 | every line has at most 80 bytes or is a single part, and with spaces for line ends the text is the parts joined by single spaces |
| `MovetextWriter.WrapReaches80` | chesskit/pgn.go:475-479 | a drawn game of four moves with three clocks is written on one line of exactly 80 columns |
| `MovetextWriter.WrapMeetsStandard` | chesskit/pgn.go:466-488 | all lines have fewer than 80 columns if and only if all parts do and, in the filling up to 79 columns, no line was ended before a part that would have made exactly 80 |
| `WrittenLayout.LinesFilled` | chesskit/pgn.go:466-488 | the written lines hold the parts in order, at most 80 columns or a single part each, and end only where the next part would not have fitted |
| `WrittenLayout.FillingUnique` | chesskit/pgn.go:466-488 | there is only one such filling |
| `MovetextWriter.WrittenScan` | chesskit/pgn.go:417-444 | scanning the written parts gives the moves in order, without the numbers their spellings lead with, each with its own clock comment, and the result; a negative move number shows up as a token |
| `MovetextWriter.MovetextRoundTrip` | chesskit/pgn.go:215-303 | scanning what was written gives exactly the moves, without leading numbers, with their clocks and the result, if and only if the move numbers fit a 64-bit int |
| `MovetextWriter.OverflowExample` | chesskit/pgn.go:437-439 | a start position with the largest move number breaks the round trip |
| `MovetextWriter.SafeWordsExactly` | chesskit/pgn.go:274-299 | a text is scanned as one move spelled like itself if and only if it is a safe word |
| `MovetextWriter.ZeroCastlingLost` | chesskit/pgn.go:307-320 | "0-0" is scanned as "-0" |
| `MovetextWriter.WordsScan` | chesskit/pgn.go:274-330 | a written game of any words is scanned as the texts of its words, in order: nothing for a result or a mere number, and a negative move number as a text of its own |
| `PgnTags.UnescapeEscape` | chesskit/pgn.go:526-538 | unescaping undoes escaping on every string |
| `PgnTags.TagLineMatches` | chesskit/pgn.go:39-40 | the tag-pair pattern recognises every written tag line with a well-formed key and a one-line value, and captures both |
| `TagGrammar.MatchExactly` | chesskit/pgn.go:39-40 | a line is a tag pair with this key and value if and only if it has the form of the pattern, with white space anywhere but inside the key |
| `TagGrammar.HeaderReads` | chesskit/pgn.go:105-165 | the last tag of a key decides, unescaped; without one a named field is empty, the result open, and there is no extra tag |
| `TagGrammar.StartRead` | chesskit/pgn.go:167-175 | the start position is the trimmed last FEN tag, or the standard one where that is missing or blank |
| `TagGrammar.DroppedExactly` | chesskit/pgn.go:98-137 | a chunk is dropped if and only if it names no event, site or player, has no further tag, no result in its movetext, and no move that can be played from the standard position |
| `PgnTags.ResultSpellings` | chesskit/result.go:18-52 | a result is read regardless of letter case and surrounding white space, and a text is read as itself exactly when it is one of the four result tokens |
| `TagGrammar.ResultDecides` | chesskit/result.go:18-52 | what any text is read as: a win or a loss by a few words, otherwise a draw by its words or by naming one anywhere, otherwise a win or a loss by how it starts, otherwise open |
| `PgnWriter.KeysInOrder` | chesskit/pgn.go:398-402 | ranging over the map in any order and sorting gives the one sorted list of its keys |
| `PgnWriter.WritePgn` | chesskit/pgn.go:344-415 | roster, sorted further tags with Board, SetUp and FEN, empty line, movetext |
| `WrittenLayout.GameLayout` | chesskit/pgn.go:344-415 | the Seven Tag Roster in its order with its defaults, then exactly the further tags by ascending key, an empty line, and the movetext |
| `PgnWriter.WriteBundlePgn` | chesskit/pgn.go:501-512 | the games one after the other with one empty line between them |
| `PgnParser.SplitGames` | chesskit/pgn.go:64-96 | the line loop computes the chunks: a tag line after movetext opens a new one |
| `GameSplit.SplitExactly` | chesskit/pgn.go:64-96 | a text is split exactly at the tag lines whose nearest line before them that is not blank is movetext |
| `GameSplit.LineEndsAlike` | chesskit/pgn.go:67 | a text is parsed the same with CR LF line ends |
| `GameSplit.TagAloneDropped` | chesskit/pgn.go:131-135 | a chunk with nothing but a date, round, board or result tag is dropped |
| `PgnParser.ParseOneGame` | chesskit/pgn.go:98-137 | tags, start position, moves and result of a chunk, or nothing for a chunk without any |
| `PgnParser.ParseMovetext` | chesskit/pgn.go:182-213 | the tokens are played from the start position up to the first that does not resolve |
| `PgnParser.ParsePgn` | chesskit/pgn.go:48-62 | the games of all chunks, in order |
| `LineComments.SemicolonSwallowsRest` | chesskit/pgn.go:245-252 | from a ';' on, the scanner of any chunk records nothing more |
| `LineComments.FlatReadsExactly` | chesskit/pgn.go:114 | spaces for line ends leave the moves, clocks and result of a text as they are if and only if nothing is recorded behind the line of its first ';' comment |
| `LineComments.CommentsEndExactly` | chesskit/pgn.go:245-252 | a chunk is read as if its ';' comments ended with their lines under exactly that condition |
| `LineComments.NoCommentNothingLost` | chesskit/pgn.go:114 | a chunk without ';' in its movetext lines gives the game that its lines give |
| `LineComments.MoveLost` | chesskit/pgn.go:245-252 | a chunk with a start position and two playable moves on two lines is parsed to one move |
| `PgnRoundTrip.EncodedSafe` | chesskit/pgn.go:274-299 | canonical notation is a safe word and never looks like a tag |
| `PgnRoundTrip.ChunksBundle` | chesskit/pgn.go:64-96 | the lines of a written bundle are split into exactly its games |
| `PgnRoundTrip.HeaderRead` | chesskit/pgn.go:105-112 | the tags of a written game with plain tags are read as its header, with default roster values and SetUp/FEN |
| `PgnRoundTrip.TokensReplay` | chesskit/pgn.go:193-212 | playing the scanned tokens gives the moves in canonical spelling with their positions and clocks |
| `PgnRoundTrip.ReplayedIsCanonical` | chesskit/pgn.go:200-206 | what was read is a canonical line, whatever spelling was written |
| `PgnRoundTrip.GameScans` | chesskit/pgn.go:98-137 | a written game whose lines can be told apart is read with its own header and start, and with the moves that its movetext is scanned as |
| `PgnRoundTrip.GameReadsBack` | chesskit/pgn.go:182-213 | for safe spelling these are its moves in canonical spelling up to the first unplayable one |
| `ParsedGames.BundleReadsExactly` | chesskit/pgn.go:48-62 | parsing a written bundle of safely spelled games reads every game back in order if and only if every header fits the tag grammar and names its start position and the numbers of the played moves fit a 64-bit int |
| `ParsedGames.BundleComesBackExactly` | chesskit/pgn.go:501-512 | games with canonical moves come back exactly, up to default tags, SetUp/FEN and negative clocks, if and only if their headers are like that and their move numbers fit |
| `ParsedGames.ParsedPlain` | chesskit/pgn.go:100-137 | every game parsed from any text has a header that fits the tag grammar and names its start position |
| `ParsedGames.ParsedCanonical` | chesskit/pgn.go:182-213 | every game parsed from any text is canonical when its move numbers fit a 64-bit int |
| `ParsedGames.Reparses` | chesskit/pgn.go:48-62 | any text, parsed, written and parsed again, gives the same games if and only if their move numbers fit a 64-bit int, and then the same text from then on |
| `ParsedGames.LineEndLost` | chesskit/pgn.go:374-377 | a game with any line end in its event does not come back |
| `ParsedGames.ExtraTagLost` | chesskit/pgn.go:383-405 | a game with a roster name, "Board" or no tag name among its extra tags does not come back |
| `ParsedGames.NumberLost` | chesskit/pgn.go:437-439 | a canonical line of two moves from the largest move number, Black to move, does not come back |
| `PgnRoundTrip.PrintsAgain` | chesskit/pgn.go:344-415 | printing the parsed games gives the same text again |
| `EditDistance.EditDistanceGo` | internal/recognition/postprocess.go:314-340 | the rolling-row loop returns the distance |
| `EditDistance.EditDistanceTs` | web/src/lib/chess.ts:291-307 | the browser's loop returns the same distance |
| `EditDistance.DistIsLeastCost` | internal/recognition/postprocess.go:314-340 | the distance is the least cost of a script of insertions, deletions and substitutions: some script reaches it, none is cheaper |
| `EditDistance.DistSymmetric` | internal/recognition/postprocess.go:314-340 | the distance is symmetric |
| `EditDistance.DistZero` | internal/recognition/postprocess.go:314-340 | it is zero exactly on equal texts |
| `EditDistance.TriangleInequality` | internal/recognition/postprocess.go:314-340 | it satisfies the triangle inequality |
| `EditDistance.ComposeWorks` | internal/recognition/postprocess.go:314-340 | two scripts in a row are one script of no greater cost |
| `MatchLegal.FindMatch` | internal/recognition/postprocess.go:286-312 | scoring, sorting and cutting compute the match |
| `MatchLegal.MatchMeaning` | internal/recognition/postprocess.go:283-312 | best is the alphabetically least of the nearest moves, ranked starts the sorted list of all moves, confident holds exactly when one listed move is within one edit and nearer than every other |
| `MatchLegal.MatchIgnoresOrder` | internal/recognition/postprocess.go:295-303 | the match does not depend on the order of the legal moves |
| `Reconciliation.FindDisambiguations` | internal/recognition/postprocess.go:238-253 | the legal moves of the same piece to the same square |
| `Reconciliation.Reconcile` | internal/recognition/postprocess.go:134-216 | the loop over the tokens computes the draft |
| `Reconciliation.DraftMarked` | internal/recognition/postprocess.go:134-216 | one entry per token with its text; legal entries form a prefix; the FEN is present exactly when legal; an entry that is not legal has confidence zero; an uncorrected entry is the move read, a corrected one is legal, low in confidence and among its suggestions |
| `Decisions.PieceDestExactly` | internal/recognition/postprocess.go:255-273 | a text is a piece read of this letter and square if and only if it is that letter, anything, that square and check marks |
| `Decisions.NearestExactly` | internal/recognition/postprocess.go:193-214 | a misread is corrected if and only if one legal move is within one edit and nearer than all others, and then to that move |
| `Decisions.DraftDecides` | internal/recognition/postprocess.go:134-216 | every entry up to and including the first stop: played as read, settled with the least disambiguation, corrected to the clear nearest move, or stopped with the ranking as suggestions, in the position that the entries before it reached |
| `Reconciliation.DraftPlays` | internal/recognition/postprocess.go:162-215 | the legal entries are the longest playable line of the draft's moves, and their FENs are its positions |
| `Reconciliation.BlockedDraft` | internal/recognition/postprocess.go:155-161 | after a stop every entry only records its token |
| `Reconciliation.DraftSide` | internal/recognition/postprocess.go:148-153 | the side recorded is the one to move before the entry, and stays that of the stop |
| `Reconciliation.WalkTurns` | chesskit/san.go:197-203 | the turn passes with every move of a line |
| `Ambiguity.SignatureGivesTarget` | internal/recognition/postprocess.go:255-273 | a legal move with the signature of a piece read moves that piece to that square |
| `Ambiguity.AmbiguousNeverBlocks` | internal/recognition/postprocess.go:172-192 | an ambiguous piece read has at least two disambiguations; the least of them can be played, and the token is settled with it at low confidence |
| `Review.StripOfSan` | web/src/lib/chess.ts:129-138 | what stripping leaves of any move: the first origin character and the capture go, and the file of a bare quiet move |
| `Review.Rebuild` | web/src/lib/chess.ts:146-236 | the loop over the plies computes the rebuilt list, or breaks where the library refuses the FEN |
| `Review.RebuildIff` | web/src/lib/chess.ts:157-233 | a list is the rebuilt list if and only if each entry is its ply replayed in the state left by the entries before it |
| `Review.RebuiltEntry` | web/src/lib/chess.ts:157-233 | each entry is its ply replayed in the FEN of the entry before it, blocked once an entry was not legal |
| `Review.RebuiltChain` | web/src/lib/chess.ts:157-233 | positions chain, legal plies form a prefix, other plies leave the position, sides alternate by index |
| `Review.BehindStop` | web/src/lib/chess.ts:173-199 | behind the first stop an entry is illegal if and only if its ply is no placeholder, otherwise ambiguous, and has no options |
| `Review.RebuiltPrefix` | web/src/lib/chess.ts:149-236 | rebuilding a truncated list truncates the rebuilt list |
| `PageEntries.PageShows` | web/src/lib/chess.ts:140-233 | every entry: where it starts, what it carries over from its ply, its side, whether it differs from what was read, its verdict, and as options the legal moves that reduce like it, in order, when there are several |
| `Review.RebuildBreaks` | web/src/lib/chess.ts:108-109 | the page breaks exactly when the first ply is no placeholder and the start FEN is refused |
| `Review.TailFen` | web/src/lib/chess.ts:255-263 | the FEN after the last legal ply, or the start FEN; on a rebuilt list that is the end of the legal prefix |
| `Review.LastLegalIndex` | web/src/components/ReviewWorkbench.tsx:374-381 | the index of the last ply of the legal prefix |
| `Review.EditsKeepPrefix` | web/src/components/ReviewWorkbench.tsx:150-183 | replacing, removing, inserting after and truncating leave the entries before the edit as they were |
| `PageEntries.EditedPlies` | web/src/components/ReviewWorkbench.tsx:150-178 | what replacing, inserting and removing put at the index, and that everything in front of it and behind it is kept |
| `PageEntries.EditsTakenBack` | web/src/components/ReviewWorkbench.tsx:150-178 | removing takes an insertion back, replacing by the old text a replacement |
| `PageEntries.InsertionShifts` | web/src/components/ReviewWorkbench.tsx:161-173 | an inserted placeholder stops the replay and moves every later entry to the other side, with its text, clock and confidence |
| `Review.DragGrowsPrefix` | web/src/components/ReviewWorkbench.tsx:131-148 | a dragged move that is legal at the tail makes the legal prefix at least one longer and changes nothing before it |
| `PageEntries.SelectedDrag` | web/src/components/ReviewWorkbench.tsx:118-159 | with a ply selected that is reached, a dragged move is legal in its place if and only if it can also be played in front of it; always when that ply was not legal |
| `PageEntries.SecondDrag` | web/src/components/ReviewWorkbench.tsx:131-148 | the second of two drags replaces the first, and is legal if and only if it could have been played instead |
| `PageEntries.AnswerReplacesMove` | web/src/components/ReviewWorkbench.tsx:131-148 | dragging a move and its answer leaves the answer alone, which is illegal |
| `Review.BareMoveSiblings` | web/src/lib/chess.ts:129-138 | a piece move without origin strips like its one-character disambiguations if and only if it is a capture |
| `Review.BareReadCandidates` | web/src/lib/chess.ts:113-120 | exactly which legal moves a read without origin is matched with |
| `Review.BareReadEntry` | web/src/lib/chess.ts:201-232 | such a read that cannot be played is called ambiguous exactly when several moves are matched, and offers only those |
| `Review.WrongFilesOffered` | web/src/lib/chess.ts:116-123 | an unplayable quiet read is ambiguous with bare moves to other files of its rank, never with its disambiguations |
| `SaveGate.BuildVerifiedGame` | internal/httpapi/games.go:24-69 | accepted exactly when the trimmed moves can be played to the end, with their positions, sides, clocks and PGN; otherwise the error and index of the first that cannot |
| `SavedPlies.GateRecords` | internal/httpapi/games.go:24-69 | the gate accepts if and only if every ply can be recorded with its number, trimmed text, clock, the side that the start position gives it, and the FEN that its move leads to from the record before it; then these are its records, and otherwise it names the first ply that does not resolve |
| `Agreement.RebuiltWalk` | web/src/lib/chess.ts:201-211 | the page's legal plies are the longest playable line of what it sends, with its positions |
| `Agreement.GateAgreesWithPage` | internal/httpapi/games.go:24-69 | from a readable start the gate accepts if and only if every ply of the page is legal, fails at the first that is not, and records the page's positions |
| `Agreement.GateAgreesExactly` | web/src/components/ReviewWorkbench.tsx:188-189 | save button and gate agree if and only if the list is not empty or the start position is readable |
| `Agreement.PageAgreesWithDraft` | web/src/lib/chess.ts:315-323 | opening a draft on the page reproduces its legal prefix and positions |
| `Agreement.CleanSheetSaves` | internal/recognition/postprocess.go:134-216 | a draft opened and sent unchanged is saved if and only if it is legal throughout, with its positions, and otherwise refused at its first stop |
| `Agreement.DraftReplays` | chesskit/san.go:188-206 | replaying a draft's legal prefix succeeds and gives exactly its recorded FENs |
| `Agreement.SidesAgree` | web/src/lib/chess.ts:81-85 | up to the first stop draft and page name the same side if and only if they read the same side from the start FEN; behind it they agree on every second ply only |
| `Agreement.ParsedLine` | chesskit/pgn.go:193-212 | parsed moves are canonical and legal one after the other, through the positions that the tokens reach, and end with the tokens or at the first that does not resolve |
| `Agreement.CanonicalWalk` | chesskit/san.go:196-204 | a canonical line is walked to its end through the positions it records |
| `Agreement.ParsedGameSaves` | chesskit/pgn.go:182-213 | every game parsed from any text is a chain of positions from its start, and passes the save gate with the same moves and positions when the start is readable |
| `SavedGames.SavedGameScans` | internal/httpapi/games.go:50-68 | parsing an exported game, whatever accepted spellings it holds on one line each, gives one game with the saved header (defaults for empty fields), positions and clocks, in canonical spelling, if and only if no header field holds a line end and the scanned tokens walk the saved line with its clocks and no other result |
| `SavedGames.SavedGameReads` | internal/httpapi/games.go:50-68 | for spellings that are words: if and only if no header field holds a line end, the move numbers fit, and the text each spelling is scanned as still resolves to the saved move |
| `SavedGames.SafeGameReads` | internal/httpapi/games.go:50-68 | for safe words and fitting numbers: if and only if no header field holds a line end |
| `SavedGames.EventLineEnd` | internal/httpapi/games.go:71-82 | an event with a line end breaks it |
| `SavedGames.ZeroCastlingCuts` | chesskit/pgn.go:305-330 | an exported game is cut at a castling spelled "0-0", unless the library decodes "-0" |
| `SavedGames.ZeroCastlingExample` | chesskit/san.go:21-33 | under lawful rules the gate accepts "0-0", and the exported game is read without it |
| `SavedGames.SemicolonCuts` | chesskit/pgn.go:245-252 | an exported game is cut at an accepted spelling that starts with a semicolon |
| `SavedGames.SemicolonExample` | chesskit/san.go:35-127 | under lawful rules the gate accepts ";e4" by its signature, and the exported game is read without it |
| `SavedGames.ParenthesisCuts` | chesskit/pgn.go:253-267 | ... and at one that starts with a parenthesis that neither it nor a later spelling closes |
| `RateLimit.RateLimitEntries.ConsumeRateLimit` | internal/store/ratelimit.go:11-29 | one request changes the row of its key by the upsert, leaves every other row, and is allowed when the new count is within the limit |
| `RateLimit.KeysIndependent` | internal/store/ratelimit.go:15-17 | after any requests the row of a key depends on the requests for that key only |
| `RateLimit.LaterWindow` | internal/store/ratelimit.go:18-21 | a later request counts higher in the same window, or is in a window that opened after the earlier one had passed |
| `RateLimit.WindowAdmits` | internal/store/ratelimit.go:18-28 | every fixed window admits exactly the smaller of the requests that came and the limit |
| `RateLimit.SlidingBound` | internal/store/ratelimit.go:8-29 | no stretch of time as long as the window admits more than 2 * limit - 1 requests |
| `RateLimit.SlidingBoundReached` | internal/store/ratelimit.go:17-21 | for every limit and window a burst reaches that bound |
| `RateLimit.RollingExactly` | internal/store/ratelimit.go:8-10 | no stretch as long as the window admits more than the limit if and only if the limit is at most one or the window has no length |
| `Salvage.ScanObjects` | internal/recognition/ollama.go:232-254 | the stack scanner emits the texts of the leaf objects in the order of their ends |
| `Salvage.LeavesExact` | internal/recognition/ollama.go:223-254 | these are exactly the ranges from '{' to '}' without a brace between, each once, disjoint and from left to right |
| `SalvagedMoves.SalvageExactly` | internal/recognition/ollama.go:207-263 | every token comes from one text of a decodable leaf object at or behind the first key of the moves array (anywhere when there is none), with the side it stands under; every such text has its token; they are numbered in reading order |
| `Salvage.FlattenModelMoves` | internal/recognition/ollama.go:207-221 | the texts of the rows in reading order with their sides, numbered from one |
| `Salvage.SalvageMoves` | internal/recognition/ollama.go:223-263 | the tokens of the decodable leaf objects from the moves array on |
| `BoardField.EncodeRank` | internal/recognition/positions.go:121-140 | the row with its runs of empty squares counted |
| `CanonicalRanks.EncodedExactly` | internal/recognition/positions.go:121-140 | a text is what is written for a row if and only if it expands to the row, writes out no empty square and splits no run |
| `BoardField.CellsToBoardField` | cmd/poseval/main.go:257-282 | the second Go encoder prints the same field |
| `BoardField.BoardToField` | web/src/lib/fen.ts:82-105 | the editor's encoder prints the same field |
| `BoardField.ExpandBoard` | cmd/poseval/main.go:303-321 | the expansion of any text, rank by rank |
| `BoardField.ParseRank` | web/src/lib/fen.ts:62-76 | a rank is accepted exactly when its characters are pieces and runs that add up to eight, it fills its own squares only, and never writes out of range |
| `BoardField.ParseBoardField` | web/src/lib/fen.ts:50-80 | 64 cells on any string: the described board when all eight ranks are well formed, the empty board otherwise |
| `BoardField.ExpandEncoded` | cmd/poseval/main.go:303-321 | expanding an encoded board gives the board back |
| `BoardField.EditorRoundTrip` | web/src/lib/fen.ts:82-105 | the editor parses every board it prints back to that board |
| `BoardField.EncodedFieldParses` | web/src/lib/fen.ts:54-80 | the editor reads every board of pieces and empty squares written by either Go encoder, whatever follows in the FEN |
| `BoardField.SquaresNameIndices` | web/src/lib/fen.ts:129-148 | squares and indices name each other, and nothing else is accepted |
| `Positions.NormalizeRow` | internal/recognition/positions.go:92-119 | the first eight cells of the full expansion of a row, padded with empty squares |
| `Orientation.GlyphRow` | internal/recognition/positions.go:92-119 | of a row of glyphs the first eight count: piece letters are pieces, anything else and anything missing is an empty square |
| `Orientation.BlanksAndRuns` | internal/recognition/positions.go:92-119 | blanks are dropped, and a run counts as that many empty squares, wherever they stand |
| `Positions.RepairGrid` | internal/recognition/positions.go:74-90 | the first eight rows normalised and missing rows empty, nothing for an empty grid |
| `Positions.WhiteOnTop` | internal/recognition/positions.go:142-171 | inverted exactly when the orientation score is negative |
| `Orientation.TurnedExactly` | internal/recognition/positions.go:142-171 | eight rows are turned over if and only if White's letters in the upper half and Black's in the lower outnumber White's in the lower and Black's in the upper |
| `Orientation.UprightStays` | internal/recognition/positions.go:41-52 | armies in their own halves are never turned over, and their reversal always is unless there is none |
| `Positions.FlipInPlace` | internal/recognition/positions.go:48-52 | the swapping loop reverses the rows |
| `Positions.NormalizeFen` | chesskit/board.go:34-70 | accepted exactly when readable with eight ranks, one king a side and no pawn on the outer ranks; the result is the library's FEN |
| `Positions.AssembleFen` | internal/recognition/positions.go:22-72 | the normalised FEN of a sane position, the assembled FEN marked illegal of any other grid, nothing for an empty grid |
| `GridLegality.LegalExactly` | internal/recognition/positions.go:66-71 | a grid is returned as legal if and only if the library reads its FEN and its squares, the right way up, hold exactly one king a side and no pawn on the outer ranks |
| `Orientation.SideKept` | internal/recognition/positions.go:60-71 | the returned FEN, legal or not, has Black to move exactly when the model said so |
| `Positions.NormalRowInverts` | internal/recognition/positions.go:92-140 | normalising undoes encoding a rank |
| `Positions.FlipNegates` | internal/recognition/positions.go:148-170 | reversing eight rows negates the orientation score |
| `Positions.OrientedStays` | internal/recognition/positions.go:41-52 | a corrected grid is never flipped again |
| `Positions.JudgedBoard` | internal/recognition/positions.go:66-71 | the returned FEN, normalised or not, has the board field of the grid |
| `Positions.AssembleIdempotent` | internal/recognition/positions.go:35-72 | assembling the ranks of the returned FEN gives the same result, legal or not |
| `Positions.OrientedKeepsPieces` | internal/recognition/positions.go:48-52 | orientation keeps the number of every piece |
| `Positions.EditorShowsAssembled` | internal/recognition/positions.go:22-34 | the editor shows exactly the recognised board of any grid from the returned FEN, legal or not |
| `EnginePool.SlotsStep` | internal/engine/stockfish.go:96-122 | idle and checked-out slots add up to the number of instances after every step |
| `EnginePool.ReturnNeverBlocks` | internal/engine/stockfish.go:109-120 | giving a slot back always finds room in the channel |
| `EnginePool.OnePlaceStep` | internal/engine/stockfish.go:96-122 | a process is in one idle slot or with one call, never in two places |
| `EnginePool.FailedStep` | internal/engine/stockfish.go:114-119 | a process whose search failed never enters a slot or a search again |
| `EnginePool.LiveBounded` | internal/engine/stockfish.go:285-287 | never more live processes than instances |
| `EnginePool.KilledStep` | internal/engine/stockfish.go:291-299 | never two of: live, about to be killed by one party, killed once |
| `EnginePool.AccountedStep` | internal/engine/stockfish.go:291-299 | always one of these: no process that was started is lost |
| `EnginePool.ReapKills` | internal/engine/stockfish.go:291-299 | a party that has taken a process off the live set kills it, once and for good |
| `EnginePool.FailedProcessEnds` | internal/engine/stockfish.go:114-119 | a process whose search failed comes into no slot and no other call again, and is killed, or about to be by a closing, when its call gives the slot back |
| `EnginePool.FirstInFirstOut` | internal/engine/stockfish.go:96-122 | slots are handed out in the order in which they came back |
| `EnginePool.CallAdvances` | internal/engine/stockfish.go:96-122 | a call makes at most seven steps |
| `EnginePool.PoolSafety` | internal/engine/stockfish.go:93-122 | all of these in every state of every run, with any number of calls and closings: in particular every process is exactly one of live, about to be killed by one party, or killed once |
| `EnginePool.PoolMovesOn` | internal/engine/stockfish.go:96-122 | no deadlock: where a call waits, it can take a slot or a call that holds one can move on |
| `EnginePool.CloseLeaves` | internal/engine/stockfish.go:221-233 | when Close is through, exactly the processes spawned since it began and not taken off the live set by a later step are live; none is if and only if every process spawned meanwhile was taken off again |
| `EnginePool.QuietCloseLeavesNothing` | internal/engine/stockfish.go:221-233 | without a spawn meanwhile Close leaves nothing live |
| `EnginePool.SpawnOutlivesClose` | internal/engine/stockfish.go:285-288 | a spawn as the last step before Close is through leaves its process live |
| `EnginePool.LateSpawnSurvives` | internal/engine/stockfish.go:221-233 | a run in which a process comes to life after Close is through |
| `EngineClient.StepInv` | web/src/lib/engine.ts:168-229 | every step keeps: the whole traffic belongs to the running search, and its listener has kept what was said for it |
| `EngineClient.ClientSafety` | web/src/lib/engine.ts:168-229 | in every state of every run with any overlap and aborts: one go is outstanding while an analysis runs and none otherwise, every result holds for every line number the last info with moves that was said for a search of its own, no search serves two calls, no call is lost |
| `EngineClient.HearsLast` | web/src/lib/engine.ts:207-215 | a listener keeps the last info with moves of every line number |
| `EngineClient.ServedInOrder` | web/src/lib/engine.ts:168-229 | calls are served in the order in which they came |
| `EngineClient.AbortedNeverStarts` | web/src/lib/engine.ts:168-229 | a call that is aborted while it waits is never searched for |
| `EngineClient.UnstartedWasAborted` | web/src/lib/engine.ts:168-229 | only an aborted call ends without a search |
| `EngineClient.StopIsSent` | web/src/lib/engine.ts:168-229 | a newer call, or the abort of the running one, asks the running search to stop: as long as it runs, a stop is the last command on its way or the worker has taken it |
| `EngineClient.ClientMovesOn` | web/src/lib/engine.ts:168-229 | no deadlock: while a call has no result, the next analysis can begin, the worker can read or answer, or a line can be delivered |
| `EngineClient.HearKeys` | web/src/lib/engine.ts:207-215 | a listener has a line number exactly when an info line with moves named it |
| `EngineClient.OrderedByLine` | web/src/lib/engine.ts:199-205 | the result lists one score for every line number heard, in increasing order |

## Left out

- MovetextWriter.CountersRead: FENs with single spaces and a positive number; where the number is unreadable or not positive the code takes one.
- SavedGames.SavedGameScans: says nothing of spellings with a line end inside, of movetext lines that read as tags, and of start FENs with surrounding white space.
- PgnTags.ResultSpellings: only ASCII letters are folded to lower case, and only ASCII white space is trimmed.
- Movetext.TokenizeMovetext: trimming covers ASCII white space, not the Unicode spaces that Go's TrimSpace also removes.
- MovetextWriter.SafeWordsExactly: likewise says nothing of words that begin or end with a Unicode space.
- Agreement.GateAgreesWithPage: rests on the assumption that the two chess libraries accept the same FENs and moves; in reality they differ in lenient spellings.
- RateLimit.RateLimitEntries.ConsumeRateLimit: the count is unbounded, where the database column would overflow, and times are whole microseconds.
- EnginePool.PoolSafety: safety and freedom from deadlock; that a waiting call is served in the end depends on the scheduler.
- EngineClient.ClientSafety: safety and freedom from deadlock; the option and position commands, the handshake, live updates and `terminate` are not modelled.
- Review.Rebuild: every ply has a confidence; the default of 1 for a missing one is not modelled.
- The chess libraries themselves: legality, notation and FEN parsing are the oracle described above.
- German notation (`GermanToSAN`) and JSON decoding, which are parameters of the model.
- Parsing and printing UCI lines, evaluation scores beyond their order and sign, and the Stockfish processes themselves.
- Ranking corrections by similarity, review colours and sibling lists in the browser: short filters without state.
- Floating point: confidences are reals, and nothing depends on their rounding.
- HTTP handlers, sessions, storage, SQL apart from the limiter's upsert, the job queue, and the clients of language and speech models.
- The React user interface beyond the ply-list edits.
