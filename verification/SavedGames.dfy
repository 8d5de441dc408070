/** Reading back what the save gate exports (internal/httpapi/games.go, chesskit/pgn.go). The gate accepts
    more spellings than the scanner gives back; the exported text holds the saved game exactly when what
    is scanned replays the saved line. */
module SavedGames {
  import opened Text
  import opened ChessRules
  import opened SanMoves
  import A = Agreement
  import G = SaveGate
  import H = ParsedGames
  import M = Movetext
  import P = PgnParser
  import T = PgnRoundTrip
  import W = PgnWriter
  import Clock
  import MovetextWriter
  import PgnTags

  // ---------- what was saved ----------

  ghost predicate Accepted(r: Rules, h: G.DraftHeader, start: string, inputs: seq<G.MoveInput>, v: G.Verified) {
    Lawful(r) && ReadFen(r, start).Some? && G.IsVerified(r, h, start, inputs, v, None)
  }

  /** The positions of the saved line. */
  function SavedWalk(r: Rules, start: string, inputs: seq<G.MoveInput>): (w: seq<Position>)
    requires ReadFen(r, start).Some?
    ensures w != []
  {
    Walk(r, ReadFen(r, start).value, G.TrimmedSans(inputs))
  }

  lemma AcceptedWalk(r: Rules, h: G.DraftHeader, start: string, inputs: seq<G.MoveInput>, v: G.Verified)
    requires Accepted(r, h, start, inputs, v)
    ensures var w := SavedWalk(r, start, inputs);
      |w| == |inputs| + 1 && v.moves == G.VerifiedMoves(inputs, start, Fens(r, w[1..]))
      && v.pgn == W.GameText(G.SavedGame(h, start, inputs, Fens(r, w[1..])))
  {
  }

  /** What the gate accepts is not empty. */
  lemma AcceptedSolid(r: Rules, h: G.DraftHeader, start: string, inputs: seq<G.MoveInput>, v: G.Verified, k: nat)
    requires Accepted(r, h, start, inputs, v) && k < |inputs|
    ensures Solid(Trim(inputs[k].san))
  {
    var w := SavedWalk(r, start, inputs);
    AcceptedWalk(r, h, start, inputs, v);
    WalkIsLongestLine(NextOf(r), w[0], G.TrimmedSans(inputs));
    assert Leads(NextOf(r), G.TrimmedSans(inputs), w, k);
    TrimShape(inputs[k].san);
    if Trim(inputs[k].san) == "" {
      TrimIdempotent(inputs[k].san);
      PlaceholderIllegal(r, w[k], Trim(inputs[k].san));
    }
  }

  // ---------- what is exported ----------

  /** The exported game, but for the recorded positions, which are not written. */
  function Sent(h: G.DraftHeader, start: string, inputs: seq<G.MoveInput>): W.Game {
    G.SavedGame(h, start, inputs, seq(|inputs|, (_: int) => ""))
  }

  ghost predicate PlainStart(start: string) {
    start != "" && (start != STARTING_FEN ==> Solid(start) && Lacks(start, '\n'))
  }

  /** Spellings on one line, clocks that fit Go's int, and no line of the movetext that reads as a tag. */
  ghost predicate Exportable(h: G.DraftHeader, start: string, inputs: seq<G.MoveInput>) {
    && PlainStart(start)
    && (forall i :: 0 <= i < |inputs| ==> Lacks(Trim(inputs[i].san), '\n') && IntClock(inputs[i]))
    && (forall l :: l in W.MoveLines(Sent(h, start, inputs)) ==> !P.IsTag(l))
  }

  predicate IntClock(m: G.MoveInput) {
    m.clock.Some? ==> m.clock.value <= MAX_INT64
  }

  lemma {:induction false} PartsAlike(a: seq<M.Move>, b: seq<M.Move>, num: int, white: bool, first: bool)
    requires |a| == |b| && forall i :: 0 <= i < |a| ==> a[i].san == b[i].san && a[i].clock == b[i].clock
    ensures MovetextWriter.MoveParts(a, num, white, first) == MovetextWriter.MoveParts(b, num, white, first)
    decreases |a|
  {
    if a == [] {
    } else {
      PartsAlike(a[1..], b[1..], MovetextWriter.NextNumber(num, white), !white, false);
    }
  }

  /** The movetext does not depend on the recorded positions. */
  lemma SentMovetext(h: G.DraftHeader, start: string, inputs: seq<G.MoveInput>, fens: seq<string>)
    requires |fens| == |inputs|
    ensures var g := G.SavedGame(h, start, inputs, fens);
      W.MoveLines(g) == W.MoveLines(Sent(h, start, inputs)) && T.Scanned(g) == T.Scanned(Sent(h, start, inputs))
  {
    var (num, white) := MovetextWriter.StartCounters(start);
    PartsAlike(G.PgnMoves(inputs, start, fens), Sent(h, start, inputs).moves, num, white, true);
  }

  /** An exported text is one game, read as its movetext is scanned. */
  lemma ExportReads(r: Rules, h: G.DraftHeader, start: string, inputs: seq<G.MoveInput>, v: G.Verified)
    requires Accepted(r, h, start, inputs, v) && Exportable(h, start, inputs) && T.PlainHeader(G.ToChessHeader(h))
    ensures P.Parsed(r, v.pgn) == [T.ScannedGame(r, Sent(h, start, inputs))]
  {
    var fens := Fens(r, SavedWalk(r, start, inputs)[1..]);
    AcceptedWalk(r, h, start, inputs, v);
    var g := G.SavedGame(h, start, inputs, fens);
    SentMovetext(h, start, inputs, fens);
    ExportReadable(r, h, start, inputs, v, fens);
    OneGameReads(r, g);
    SameScanned(r, g, Sent(h, start, inputs));
  }

  lemma ExportReadable(
    r: Rules, h: G.DraftHeader, start: string, inputs: seq<G.MoveInput>, v: G.Verified, fens: seq<string>)
    requires Accepted(r, h, start, inputs, v) && Exportable(h, start, inputs) && T.PlainHeader(G.ToChessHeader(h))
    requires |fens| == |inputs|
    ensures T.Readable(G.SavedGame(h, start, inputs, fens))
  {
    var g := G.SavedGame(h, start, inputs, fens);
    SentMovetext(h, start, inputs, fens);
    forall mv | mv in g.moves ensures T.OneLine(mv.san) {
      var i :| 0 <= i < |inputs| && mv == g.moves[i];
      AcceptedSolid(r, h, start, inputs, v, i);
    }
  }

  lemma SameScanned(r: Rules, g: W.Game, s: W.Game)
    requires g.header == s.header && g.startFen == s.startFen && T.Scanned(g) == T.Scanned(s)
    ensures T.ScannedGame(r, g) == T.ScannedGame(r, s)
  {
  }

  lemma OneGameReads(r: Rules, g: W.Game)
    requires T.Readable(g)
    ensures P.Parsed(r, W.GameText(g)) == [T.ScannedGame(r, g)]
  {
    T.GameIsBundle(g);
    T.BundleScans(r, [g]);
    assert T.ScannedGames(r, [g]) == [T.ScannedGame(r, g)];
  }

  // ---------- what is read ----------

  predicate HeaderKept(h: G.DraftHeader, read: PgnTags.Header) {
    && read.event == T.OrElse(h.event, "?") && read.site == T.OrElse(h.site, "?")
    && read.date == T.OrElse(h.date, "????.??.??") && read.round == T.OrElse(h.round, "?")
    && read.white == T.OrElse(h.white, "?") && read.black == T.OrElse(h.black, "?")
    && read.board == h.board && read.result == PgnTags.NormalizeResult(T.OrElse(h.result, "*"))
  }

  /** The one game that an exported text holds: the saved line, move by move, in canonical spelling. */
  ghost predicate ReadsAsSaved(r: Rules, h: G.DraftHeader, p: Position, v: G.Verified, games: seq<W.Game>) {
    && |games| == 1 && HeaderKept(h, games[0].header) && T.CanonicalLine(r, p, games[0].moves)
    && LineAsSaved(v.moves, games[0].moves)
  }

  ghost predicate LineAsSaved(saved: seq<G.VerifiedMove>, read: seq<M.Move>) {
    |read| == |saved| && forall k :: 0 <= k < |saved| ==> SavedAt(saved[k], read[k])
  }

  predicate SavedAt(saved: G.VerifiedMove, read: M.Move) {
    read.toFen == saved.fenAfter && read.clock == T.NormalClock(saved.clock)
  }

  /** The tokens walk the saved line, with its clocks. */
  ghost predicate TokensAsSent(r: Rules, w: seq<Position>, inputs: seq<G.MoveInput>, toks: seq<M.Token>)
    requires |w| == |inputs| + 1
  {
    && Walk(r, w[0], MovetextWriter.TokenSans(toks)) == w
    && forall k :: 0 <= k < |inputs| ==> k < |toks| && ClockAsSent(inputs[k], toks[k])
  }

  predicate ClockAsSent(m: G.MoveInput, tok: M.Token) {
    Clock.ClockFromComment(tok.comment) == T.NormalClock(m.clock)
  }

  /** Scanning gives the saved moves and no other result. */
  ghost predicate ScansAsSent(r: Rules, h: G.DraftHeader, start: string, inputs: seq<G.MoveInput>)
    requires ReadFen(r, start).Some? && |SavedWalk(r, start, inputs)| == |inputs| + 1
  {
    var scan := T.Scanned(Sent(h, start, inputs));
    && TokensAsSent(r, SavedWalk(r, start, inputs), inputs, scan.toks)
    && (scan.result == "" || scan.result == G.ToChessHeader(h).result)
  }

  /** An exported game is read as it was saved, header, positions and clocks, if and only if no header
      field holds a line end and the scanned moves replay the saved line. */
  lemma SavedGameScans(r: Rules, h: G.DraftHeader, start: string, inputs: seq<G.MoveInput>, v: G.Verified)
    requires Accepted(r, h, start, inputs, v) && Exportable(h, start, inputs)
    ensures |SavedWalk(r, start, inputs)| == |inputs| + 1
    ensures ReadsAsSaved(r, h, ReadFen(r, start).value, v, P.Parsed(r, v.pgn))
      <==> T.PlainHeader(G.ToChessHeader(h)) && ScansAsSent(r, h, start, inputs)
  {
    var p, games := ReadFen(r, start).value, P.Parsed(r, v.pgn);
    AcceptedWalk(r, h, start, inputs, v);
    if ReadsAsSaved(r, h, p, v, games) { ReadIsPlain(r, h, v.pgn, games[0]); }
    if T.PlainHeader(G.ToChessHeader(h)) {
      ExportReads(r, h, start, inputs, v);
      ReadHeader(r, h, start, inputs);
      var scan := T.Scanned(Sent(h, start, inputs));
      assert games[0].moves == P.PlayTokens(r, p, scan.toks);
      ReadMoves(r, p, start, inputs, v, scan.toks);
    }
  }

  lemma ReadHeader(r: Rules, h: G.DraftHeader, start: string, inputs: seq<G.MoveInput>)
    requires ReadFen(r, start).Some? && start != ""
    ensures var g := Sent(h, start, inputs);
      && T.ScannedGame(r, g).moves == P.PlayTokens(r, ReadFen(r, start).value, T.Scanned(g).toks)
      && (HeaderKept(h, T.ScannedGame(r, g).header)
          <==> T.Scanned(g).result == "" || T.Scanned(g).result == G.ToChessHeader(h).result)
  {
  }

  /** Playing the tokens gives the saved moves exactly when they walk the saved line. */
  lemma ReadMoves(r: Rules, p: Position, start: string, inputs: seq<G.MoveInput>, v: G.Verified, toks: seq<M.Token>)
    requires Lawful(r) && ReadFen(r, start) == Some(p) && |SavedWalk(r, start, inputs)| == |inputs| + 1
    requires v.moves == G.VerifiedMoves(inputs, start, Fens(r, SavedWalk(r, start, inputs)[1..]))
    ensures T.CanonicalLine(r, p, P.PlayTokens(r, p, toks))
    ensures LineAsSaved(v.moves, P.PlayTokens(r, p, toks))
      <==> TokensAsSent(r, SavedWalk(r, start, inputs), inputs, toks)
  {
    var w, w' := SavedWalk(r, start, inputs), Walk(r, p, MovetextWriter.TokenSans(toks));
    H.PlayedCanonical(r, p, toks);
    A.PlayedWalk(r, p, toks);
    if |w'| == |w| {
      EachMove(r, p, start, inputs, v, toks);
      SameWalk(w, w');
    }
  }

  /** Move by move, where as many are played as were saved. */
  lemma EachMove(r: Rules, p: Position, start: string, inputs: seq<G.MoveInput>, v: G.Verified, toks: seq<M.Token>)
    requires Lawful(r) && ReadFen(r, start) == Some(p) && |SavedWalk(r, start, inputs)| == |inputs| + 1
    requires v.moves == G.VerifiedMoves(inputs, start, Fens(r, SavedWalk(r, start, inputs)[1..]))
    requires |Walk(r, p, MovetextWriter.TokenSans(toks))| == |inputs| + 1
    ensures var w, w' := SavedWalk(r, start, inputs), Walk(r, p, MovetextWriter.TokenSans(toks));
      LineAsSaved(v.moves, P.PlayTokens(r, p, toks))
      <==> forall k :: 0 <= k < |inputs| ==> SameStep(w, w', k) && ClockAsSent(inputs[k], toks[k])
  {
    var w, w' := SavedWalk(r, start, inputs), Walk(r, p, MovetextWriter.TokenSans(toks));
    var moves := P.PlayTokens(r, p, toks);
    A.PlayedWalk(r, p, toks);
    forall k | 0 <= k < |inputs|
      ensures SavedAt(v.moves[k], moves[k]) <==> SameStep(w, w', k) && ClockAsSent(inputs[k], toks[k])
    {
      SavedMove(r, inputs, start, w, k);
      ReadMove(r, inputs[k], v.moves[k], w[k + 1], w'[k], w'[k + 1], toks[k], moves[k]);
    }
  }

  /** One move: saved as leading to q, read as tok from p' to q'. */
  lemma ReadMove(
    r: Rules, m: G.MoveInput, saved: G.VerifiedMove, q: Position,
    p': Position, q': Position, tok: M.Token, read: M.Move)
    requires Lawful(r) && saved.fenAfter == r.write(q) && saved.clock == m.clock
    requires A.PlayedAt(r, p', q', tok, read)
    ensures SavedAt(saved, read) <==> q' == q && ClockAsSent(m, tok)
  {
    WriteInjective(r, q, q');
  }

  predicate SameStep(w: seq<Position>, w': seq<Position>, k: nat)
    requires k + 1 < |w| == |w'|
  {
    w'[k + 1] == w[k + 1]
  }

  lemma SameWalk(w: seq<Position>, w': seq<Position>)
    requires |w| == |w'| > 0 && w[0] == w'[0]
    ensures w' == w <==> forall k :: 0 <= k < |w| - 1 ==> SameStep(w, w', k)
  {
    if forall k :: 0 <= k < |w| - 1 ==> SameStep(w, w', k) {
      forall k | 1 <= k < |w| ensures w'[k] == w[k] { assert SameStep(w, w', k - 1); }
    }
  }

  lemma SavedMove(r: Rules, inputs: seq<G.MoveInput>, start: string, w: seq<Position>, k: nat)
    requires |w| == |inputs| + 1 && k < |inputs|
    ensures var mv := G.VerifiedMoves(inputs, start, Fens(r, w[1..]))[k];
      mv.fenAfter == r.write(w[k + 1]) && mv.clock == inputs[k].clock
  {
    assert w[1..][k] == w[k + 1];
  }

  lemma WriteInjective(r: Rules, p: Position, q: Position)
    requires Lawful(r)
    ensures r.write(p) == r.write(q) ==> p == q
  {
    assert r.read(r.write(p)) == Some(p) && r.read(r.write(q)) == Some(q);
  }

  lemma ReadIsPlain(r: Rules, h: G.DraftHeader, text: string, read: W.Game)
    requires read in P.Parsed(r, text) && HeaderKept(h, read.header)
    ensures T.PlainHeader(G.ToChessHeader(h))
  {
    H.ParsedPlain(r, text, read);
    KeptIsPlain(h, read.header);
  }

  lemma KeptIsPlain(h: G.DraftHeader, read: PgnTags.Header)
    requires HeaderKept(h, read) && T.PlainHeader(read)
    ensures T.PlainHeader(G.ToChessHeader(h))
  {
  }

  // ---------- spellings that are words ----------

  /** No white space, brace, parenthesis or semicolon inside, no dollar in front. */
  ghost predicate Worded(inputs: seq<G.MoveInput>) {
    forall i :: 0 <= i < |inputs| ==> MovetextWriter.IsWord(Trim(inputs[i].san))
  }

  /** What the exported spelling of the k-th move is scanned as still is the move that was saved. */
  ghost predicate StillLeads(r: Rules, w: seq<Position>, inputs: seq<G.MoveInput>, k: nat)
    requires |w| == |inputs| + 1 && k < |inputs|
  {
    Next(r, w[k], MovetextWriter.WordText(Trim(inputs[k].san))) == Ok(w[k + 1])
  }

  ghost predicate SentNumbersFit(start: string, count: nat) {
    var (num, white) := MovetextWriter.StartCounters(start);
    MovetextWriter.NumbersFit(count, num, white)
  }

  /** An export spelled in words is read as it was saved if and only if no header field holds a line
      end, the move numbers fit, and every spelling, as it is scanned, still resolves to the saved
      move. */
  lemma SavedGameReads(r: Rules, h: G.DraftHeader, start: string, inputs: seq<G.MoveInput>, v: G.Verified)
    requires Accepted(r, h, start, inputs, v) && Exportable(h, start, inputs) && Worded(inputs)
    ensures |SavedWalk(r, start, inputs)| == |inputs| + 1
    ensures ReadsAsSaved(r, h, ReadFen(r, start).value, v, P.Parsed(r, v.pgn))
      <==> T.PlainHeader(G.ToChessHeader(h)) && SentNumbersFit(start, |inputs|)
           && forall k :: 0 <= k < |inputs| ==> StillLeads(r, SavedWalk(r, start, inputs), inputs, k)
  {
    SavedGameScans(r, h, start, inputs, v);
    if T.PlainHeader(G.ToChessHeader(h)) {
      SentWords(r, h, start, inputs, v);
      WordsAsSent(r, h, start, inputs);
    }
  }

  lemma SentWords(r: Rules, h: G.DraftHeader, start: string, inputs: seq<G.MoveInput>, v: G.Verified)
    requires Accepted(r, h, start, inputs, v) && Worded(inputs)
    ensures MovetextWriter.WordMoves(Sent(h, start, inputs).moves)
  {
    var moves := Sent(h, start, inputs).moves;
    forall mv | mv in moves ensures MovetextWriter.IsWord(mv.san) && Solid(mv.san) {
      var i :| 0 <= i < |inputs| && mv == moves[i];
      AcceptedSolid(r, h, start, inputs, v, i);
    }
  }

  lemma WordsAsSent(r: Rules, h: G.DraftHeader, start: string, inputs: seq<G.MoveInput>)
    requires Lawful(r) && ReadFen(r, start).Some? && |SavedWalk(r, start, inputs)| == |inputs| + 1
    requires Exportable(h, start, inputs) && T.PlainHeader(G.ToChessHeader(h))
    requires MovetextWriter.WordMoves(Sent(h, start, inputs).moves)
    ensures ScansAsSent(r, h, start, inputs)
      <==> SentNumbersFit(start, |inputs|)
           && forall k :: 0 <= k < |inputs| ==> StillLeads(r, SavedWalk(r, start, inputs), inputs, k)
  {
    var g, w := Sent(h, start, inputs), SavedWalk(r, start, inputs);
    if ScansAsSent(r, h, start, inputs) {
      A.PlayedWalk(r, w[0], T.Scanned(g).toks);
      H.ScannedAtMost(r, g, w[0]);
    }
    if forall k :: 0 <= k < |inputs| ==> StillLeads(r, w, inputs, k) { LeadingWords(r, h, start, inputs); }
    if SentNumbersFit(start, |inputs|) && MovetextWriter.NumberedSans(g.moves) {
      IntactScan(r, h, start, inputs);
    }
  }

  /** A word that leads anywhere is scanned as a move. */
  lemma LeadingWords(r: Rules, h: G.DraftHeader, start: string, inputs: seq<G.MoveInput>)
    requires ReadFen(r, start).Some? && |SavedWalk(r, start, inputs)| == |inputs| + 1
    requires MovetextWriter.WordMoves(Sent(h, start, inputs).moves)
    requires forall k :: 0 <= k < |inputs| ==> StillLeads(r, SavedWalk(r, start, inputs), inputs, k)
    ensures MovetextWriter.NumberedSans(Sent(h, start, inputs).moves)
  {
    var moves, w := Sent(h, start, inputs).moves, SavedWalk(r, start, inputs);
    forall mv | mv in moves ensures MovetextWriter.Numbered(mv.san) {
      var k :| 0 <= k < |inputs| && mv == moves[k];
      assert StillLeads(r, w, inputs, k);
      NothingIllegal(r, w[k]);
    }
  }

  lemma NothingIllegal(r: Rules, p: Position)
    ensures Next(r, p, "").Err?
  {
    assert NormalizeSan("") == "";
  }

  /** Where every word is scanned as a move and the numbers fit, the scanned moves replay the saved line
      if and only if each of them still leads on. */
  lemma IntactScan(r: Rules, h: G.DraftHeader, start: string, inputs: seq<G.MoveInput>)
    requires ReadFen(r, start).Some? && |SavedWalk(r, start, inputs)| == |inputs| + 1
    requires Exportable(h, start, inputs) && T.PlainHeader(G.ToChessHeader(h)) && SentNumbersFit(start, |inputs|)
    requires MovetextWriter.NumberedSans(Sent(h, start, inputs).moves)
    ensures ScansAsSent(r, h, start, inputs)
      <==> forall k :: 0 <= k < |inputs| ==> StillLeads(r, SavedWalk(r, start, inputs), inputs, k)
  {
    var g, w := Sent(h, start, inputs), SavedWalk(r, start, inputs);
    var toks := MovetextWriter.MoveTokens(MovetextWriter.StrippedMoves(g.moves));
    MovetextWriter.MovetextRoundTrip(start, g.moves, W.ResultText(g.header));
    assert T.Scanned(g) == M.Scan(toks, W.ResultText(g.header));
    IntactTokens(h, start, inputs);
    WalksExactly(r, w, inputs, MovetextWriter.TokenSans(toks));
  }

  lemma IntactTokens(h: G.DraftHeader, start: string, inputs: seq<G.MoveInput>)
    requires forall i :: 0 <= i < |inputs| ==> IntClock(inputs[i])
    requires MovetextWriter.NumberedSans(Sent(h, start, inputs).moves)
    ensures var toks := MovetextWriter.MoveTokens(MovetextWriter.StrippedMoves(Sent(h, start, inputs).moves));
      forall k :: 0 <= k < |inputs| ==>
        ClockAsSent(inputs[k], toks[k]) && toks[k].san == MovetextWriter.WordText(Trim(inputs[k].san))
  {
    var moves := Sent(h, start, inputs).moves;
    var toks := MovetextWriter.MoveTokens(MovetextWriter.StrippedMoves(moves));
    forall k | 0 <= k < |inputs|
      ensures ClockAsSent(inputs[k], toks[k]) && toks[k].san == MovetextWriter.WordText(Trim(inputs[k].san))
    {
      assert moves[k] in moves && MovetextWriter.Numbered(moves[k].san);
      T.ClockComesBack(MovetextWriter.StrippedMoves(moves)[k]);
    }
  }

  lemma WalksExactly(r: Rules, w: seq<Position>, inputs: seq<G.MoveInput>, sans: seq<string>)
    requires |w| == |inputs| + 1 && |sans| == |inputs|
    requires forall k :: 0 <= k < |inputs| ==> sans[k] == MovetextWriter.WordText(Trim(inputs[k].san))
    ensures Walk(r, w[0], sans) == w <==> forall k :: 0 <= k < |inputs| ==> StillLeads(r, w, inputs, k)
  {
    var next := NextOf(r);
    WalkIsLongestLine(next, w[0], sans);
    forall k | 0 <= k < |inputs| ensures Leads(next, sans, w, k) <==> StillLeads(r, w, inputs, k) {}
    if forall k :: 0 <= k < |inputs| ==> StillLeads(r, w, inputs, k) { LongestLineUnique(next, w[0], sans, w); }
  }

  /** Safe words are scanned as they are spelled, so that only the header matters. */
  lemma SafeGameReads(r: Rules, h: G.DraftHeader, start: string, inputs: seq<G.MoveInput>, v: G.Verified)
    requires Accepted(r, h, start, inputs, v) && Exportable(h, start, inputs) && SentNumbersFit(start, |inputs|)
    requires forall i :: 0 <= i < |inputs| ==> MovetextWriter.WordSafe(Trim(inputs[i].san))
    ensures ReadsAsSaved(r, h, ReadFen(r, start).value, v, P.Parsed(r, v.pgn)) <==> T.PlainHeader(G.ToChessHeader(h))
  {
    forall i | 0 <= i < |inputs| ensures MovetextWriter.IsWord(Trim(inputs[i].san)) {
      MovetextWriter.SafeIsNumbered(Trim(inputs[i].san));
    }
    SavedGameReads(r, h, start, inputs, v);
    forall k | 0 <= k < |inputs| ensures StillLeads(r, SavedWalk(r, start, inputs), inputs, k) {
      SafeLeads(r, start, inputs, k);
    }
  }

  lemma SafeLeads(r: Rules, start: string, inputs: seq<G.MoveInput>, k: nat)
    requires ReadFen(r, start).Some? && |SavedWalk(r, start, inputs)| == |inputs| + 1 && k < |inputs|
    requires MovetextWriter.WordSafe(Trim(inputs[k].san))
    ensures StillLeads(r, SavedWalk(r, start, inputs), inputs, k)
  {
    var w := SavedWalk(r, start, inputs);
    MovetextWriter.SafeIsNumbered(Trim(inputs[k].san));
    WalkIsLongestLine(NextOf(r), w[0], G.TrimmedSans(inputs));
    assert Leads(NextOf(r), G.TrimmedSans(inputs), w, k);
  }

  /** A failing header: with a line end in the event, the export does not read as it was saved. */
  lemma EventLineEnd(r: Rules, h: G.DraftHeader, start: string, inputs: seq<G.MoveInput>, v: G.Verified)
    requires Accepted(r, h, start, inputs, v) && Exportable(h, start, inputs) && h.event == "Berlin\nOpen"
    ensures !ReadsAsSaved(r, h, ReadFen(r, start).value, v, P.Parsed(r, v.pgn))
  {
    BrokenEvent(h);
    SavedGameScans(r, h, start, inputs, v);
  }

  lemma BrokenEvent(h: G.DraftHeader)
    requires h.event == "Berlin\nOpen"
    ensures !T.PlainHeader(G.ToChessHeader(h))
  {
    assert h.event[6] == '\n';
  }

  // ---------- spellings that cut the export ----------

  /** Nothing is played behind a text that resolves nowhere. */
  lemma {:induction false} NoFurther(next: Player, p: Position, before: seq<string>, x: string, rest: seq<string>)
    requires forall q: Position :: next(q, x).Err?
    ensures |WalkBy(next, p, before + ([x] + rest))| <= |WalkBy(next, p, before)|
    decreases |before|
  {
    if before == [] {
      assert before + ([x] + rest) == [x] + rest;
    } else {
      assert (before + ([x] + rest))[1..] == before[1..] + ([x] + rest);
      if next(p, before[0]).Ok? { NoFurther(next, next(p, before[0]).value, before[1..], x, rest); }
    }
  }

  /** Of a written game of words at most its moves are played. */
  lemma WordsWalk(r: Rules, p: Position, moves: seq<M.Move>, num: int, white: bool)
    requires Lawful(r) && MovetextWriter.WordMoves(moves) && 0 <= num <= MAX_INT64
    ensures |Walk(r, p, MovetextWriter.WrittenSans(moves, num, white, true))| <= |moves| + 1
  {
    var sans := MovetextWriter.WrittenSans(moves, num, white, true);
    var toks := seq(|sans|, i requires 0 <= i < |sans| => M.Token(sans[i], ""));
    assert MovetextWriter.TokenSans(toks) == sans;
    H.PlayedAtMost(r, p, toks, moves, num, white, true);
    A.PlayedWalk(r, p, toks);
  }

  lemma NumberNowhere(r: Rules, num: int)
    requires Lawful(r) && num < 0
    ensures forall q: Position :: NextOf(r)(q, NumberText(num)).Err?
  {
    forall q: Position ensures NextOf(r)(q, NumberText(num)).Err? { NegativeIllegal(r, q, num); }
  }

  /** Nor are more played with a number behind them. */
  lemma BeforeWalk(r: Rules, p: Position, a: seq<M.Move>, num: int, white: bool)
    requires Lawful(r) && MovetextWriter.WordMoves(a) && 0 <= num <= MAX_INT64
    ensures |Walk(r, p, MovetextWriter.SansBefore(a, num, white, true))| <= |a| + 1
  {
    var (num', white') := MovetextWriter.CountersAt(num, white, |a|);
    var sans := MovetextWriter.WrittenSans(a, num, white, true);
    var number := MovetextWriter.NumberSans(num', white', a == []);
    WordsWalk(r, p, a, num, white);
    if number == [] {
      assert sans + number == sans;
    } else {
      NumberNowhere(r, num');
      assert number == [NumberText(num')] + [];
      NoFurther(NextOf(r), p, sans, NumberText(num'), []);
    }
  }

  /** The movetext from the k-th spelling on. */
  function TextFrom(h: G.DraftHeader, start: string, inputs: seq<G.MoveInput>, k: nat): string
    requires k < |inputs|
  {
    var g := Sent(h, start, inputs);
    var (num, white) := MovetextWriter.StartCounters(start);
    var (num', white') := MovetextWriter.CountersAt(num, white, k);
    Join(MovetextWriter.PartsFrom(g.moves[k], g.moves[k + 1..], num', white') + [W.ResultText(g.header)], " ")
  }

  /** Scanning the text records nothing. */
  ghost predicate Swallowed(text: string) {
    forall st: M.Scan :: M.ScanFrom(text, st) == st
  }

  /** Where the rest of the movetext is swallowed, the export is cut. */
  lemma SwallowedCuts(
    r: Rules, h: G.DraftHeader, start: string, inputs: seq<G.MoveInput>, v: G.Verified, k: nat)
    requires Accepted(r, h, start, inputs, v) && Exportable(h, start, inputs) && T.PlainHeader(G.ToChessHeader(h))
    requires k < |inputs| && Worded(inputs[..k]) && Swallowed(TextFrom(h, start, inputs, k))
    ensures |P.Parsed(r, v.pgn)| == 1 && |P.Parsed(r, v.pgn)[0].moves| <= k < |v.moves|
  {
    var moves := Sent(h, start, inputs).moves;
    var (num, white) := MovetextWriter.StartCounters(start);
    ExportLength(r, h, start, inputs, v);
    FirstWords(r, h, start, inputs, v, k);
    SwallowedScan(h, start, inputs, k);
    BeforeWalk(r, ReadFen(r, start).value, moves[..k], num, white);
  }

  /** An export is read as a game of as many moves as its tokens can be walked. */
  lemma ExportLength(r: Rules, h: G.DraftHeader, start: string, inputs: seq<G.MoveInput>, v: G.Verified)
    requires Accepted(r, h, start, inputs, v) && Exportable(h, start, inputs) && T.PlainHeader(G.ToChessHeader(h))
    ensures var sans := MovetextWriter.TokenSans(T.Scanned(Sent(h, start, inputs)).toks);
      |P.Parsed(r, v.pgn)| == 1 && |P.Parsed(r, v.pgn)[0].moves| == |Walk(r, ReadFen(r, start).value, sans)| - 1
    ensures |v.moves| == |inputs|
  {
    AcceptedWalk(r, h, start, inputs, v);
    ExportReads(r, h, start, inputs, v);
    ReadHeader(r, h, start, inputs);
    A.PlayedWalk(r, ReadFen(r, start).value, T.Scanned(Sent(h, start, inputs)).toks);
  }

  lemma SwallowedScan(h: G.DraftHeader, start: string, inputs: seq<G.MoveInput>, k: nat)
    requires k < |inputs| && MovetextWriter.WordMoves(Sent(h, start, inputs).moves[..k])
    requires Swallowed(TextFrom(h, start, inputs, k))
    ensures var (num, white) := MovetextWriter.StartCounters(start);
      MovetextWriter.TokenSans(T.Scanned(Sent(h, start, inputs)).toks)
      == MovetextWriter.SansBefore(Sent(h, start, inputs).moves[..k], num, white, true)
  {
    var g := Sent(h, start, inputs);
    CutAround(g.moves, k);
    var st := MovetextWriter.ScanFromMove(start, g.moves[..k], g.moves[k], g.moves[k + 1..], W.ResultText(g.header));
    assert T.Scanned(g) == M.ScanFrom(TextFrom(h, start, inputs, k), st) == st;
  }

  lemma FirstWords(r: Rules, h: G.DraftHeader, start: string, inputs: seq<G.MoveInput>, v: G.Verified, k: nat)
    requires Accepted(r, h, start, inputs, v) && k <= |inputs| && Worded(inputs[..k])
    ensures MovetextWriter.WordMoves(Sent(h, start, inputs).moves[..k])
  {
    var moves := Sent(h, start, inputs).moves;
    forall mv | mv in moves[..k] ensures MovetextWriter.IsWord(mv.san) && Solid(mv.san) {
      var i :| 0 <= i < k && mv == moves[..k][i];
      assert inputs[..k][i] == inputs[i];
      AcceptedSolid(r, h, start, inputs, v, i);
    }
  }

  lemma FromLacks(h: G.DraftHeader, start: string, inputs: seq<G.MoveInput>, k: nat, c: char)
    requires k < |inputs| && (c == '\n' || c == ')')
    requires forall i :: k <= i < |inputs| ==> Lacks(Trim(inputs[i].san), c)
    ensures Lacks(TextFrom(h, start, inputs, k), c)
  {
    var g := Sent(h, start, inputs);
    var (num, white) := MovetextWriter.StartCounters(start);
    var (num', white') := MovetextWriter.CountersAt(num, white, k);
    var m, rest, res := g.moves[k], g.moves[k + 1..], W.ResultText(g.header);
    RestLacks(g.moves, k, c);
    FromPartsLack(m, rest, num', white', c);
    ResultLacks(h, c);
    MovetextWriter.JoinLacks(MovetextWriter.PartsFrom(m, rest, num', white') + [res], c);
  }

  lemma RestLacks(moves: seq<M.Move>, k: nat, c: char)
    requires k < |moves| && forall i :: k <= i < |moves| ==> Lacks(moves[i].san, c)
    ensures forall mv :: mv in moves[k + 1..] ==> Lacks(mv.san, c)
  {
  }

  lemma ResultLacks(h: G.DraftHeader, c: char)
    requires c == '\n' || c == ')'
    ensures Lacks(W.ResultText(G.ToChessHeader(h)), c)
  {
    var res := G.ToChessHeader(h).result;
    assert res in ["1-0", "0-1", "1/2-1/2", "*"];
  }

  lemma FromPartsLack(m: M.Move, rest: seq<M.Move>, num: int, white: bool, c: char)
    requires (c == '\n' || c == ')') && Lacks(m.san, c) && forall mv :: mv in rest ==> Lacks(mv.san, c)
    ensures forall p :: p in MovetextWriter.PartsFrom(m, rest, num, white) ==> Lacks(p, c)
  {
    ClockLacks(m.clock, c);
    PartsLack(rest, MovetextWriter.NextNumber(num, white), !white, false, c);
  }

  lemma {:induction false} PartsLack(moves: seq<M.Move>, num: int, white: bool, first: bool, c: char)
    requires c == '\n' || c == ')'
    requires forall mv :: mv in moves ==> Lacks(mv.san, c)
    ensures forall p :: p in MovetextWriter.MoveParts(moves, num, white, first) ==> Lacks(p, c)
    decreases |moves|
  {
    if moves == [] {
    } else {
      assert moves[0] in moves && forall mv :: mv in moves[1..] ==> mv in moves;
      NumberLacks(num, ".", c);
      NumberLacks(num, "...", c);
      ClockLacks(moves[0].clock, c);
      PartsLack(moves[1..], MovetextWriter.NextNumber(num, white), !white, false, c);
    }
  }

  lemma NumberLacks(num: int, dots: string, c: char)
    requires (c == '\n' || c == ')') && (dots == "." || dots == "...")
    ensures Lacks(FormatInt(num) + dots, c)
  {
    assert Lacks(Decimal(if num < 0 then -num else num), c);
    assert Lacks(FormatInt(num), c);
  }

  lemma ClockLacks(clock: Option<int>, c: char)
    requires c == '\n' || c == ')'
    ensures forall p :: p in MovetextWriter.ClockPart(clock) ==> Lacks(p, c)
  {
    if clock.Some? {
      var n := if clock.value < 0 then 0 else clock.value;
      var h, m, s := Decimal(n / 3600), Clock.TwoDigits(n % 3600 / 60), Clock.TwoDigits(n % 60);
      assert Lacks(h, c) && Lacks(m, c) && Lacks(s, c);
      var text := h + ":" + m + ":" + s;
      assert Lacks(text, c) && text == Clock.FormatClock(clock.value);
      assert Lacks("{[%clk ", c) && Lacks("]}", c);
    }
  }

  /** An accepted spelling that starts with a semicolon swallows the rest of the exported game. */
  lemma SemicolonCuts(r: Rules, h: G.DraftHeader, start: string, inputs: seq<G.MoveInput>, v: G.Verified, k: nat)
    requires Accepted(r, h, start, inputs, v) && Exportable(h, start, inputs) && T.PlainHeader(G.ToChessHeader(h))
    requires k < |inputs| && Worded(inputs[..k]) && ";" <= Trim(inputs[k].san)
    ensures |P.Parsed(r, v.pgn)| == 1 && |P.Parsed(r, v.pgn)[0].moves| <= k < |v.moves|
  {
    var text := TextFrom(h, start, inputs, k);
    FromLacks(h, start, inputs, k, '\n');
    FromStart(h, start, inputs, k);
    SemicolonSwallows(text);
    SwallowedCuts(r, h, start, inputs, v, k);
  }

  lemma SemicolonSwallows(text: string)
    requires ";" <= text && Lacks(text, '\n')
    ensures Swallowed(text)
  {
    assert text[|text|..] == "";
  }

  lemma ParenthesisSwallows(text: string)
    requires "(" <= text && Lacks(text, ')')
    ensures Swallowed(text)
  {
    NeverClosed(text, 0);
    assert text[|text|..] == "";
  }

  /** So does one that starts with a parenthesis, unless it or a later one closes it. */
  lemma ParenthesisCuts(r: Rules, h: G.DraftHeader, start: string, inputs: seq<G.MoveInput>, v: G.Verified, k: nat)
    requires Accepted(r, h, start, inputs, v) && Exportable(h, start, inputs) && T.PlainHeader(G.ToChessHeader(h))
    requires k < |inputs| && Worded(inputs[..k]) && "(" <= Trim(inputs[k].san)
    requires forall i :: k <= i < |inputs| ==> Lacks(Trim(inputs[i].san), ')')
    ensures |P.Parsed(r, v.pgn)| == 1 && |P.Parsed(r, v.pgn)[0].moves| <= k < |v.moves|
  {
    var text := TextFrom(h, start, inputs, k);
    FromLacks(h, start, inputs, k, ')');
    FromStart(h, start, inputs, k);
    ParenthesisSwallows(text);
    SwallowedCuts(r, h, start, inputs, v, k);
  }

  lemma FromStart(h: G.DraftHeader, start: string, inputs: seq<G.MoveInput>, k: nat)
    requires k < |inputs| && Trim(inputs[k].san) != ""
    ensures TextFrom(h, start, inputs, k) != "" && TextFrom(h, start, inputs, k)[0] == Trim(inputs[k].san)[0]
  {
    var g := Sent(h, start, inputs);
    var (num, white) := MovetextWriter.StartCounters(start);
    var (num', white') := MovetextWriter.CountersAt(num, white, k);
    var parts := MovetextWriter.PartsFrom(g.moves[k], g.moves[k + 1..], num', white') + [W.ResultText(g.header)];
    assert parts == [parts[0]] + parts[1..] && parts[0] == Trim(inputs[k].san) && parts[1..] != [];
    JoinCons(parts[0], parts[1..], " ");
  }

  lemma {:induction false} NeverClosed(s: string, depth: int)
    requires Lacks(s, ')')
    ensures M.VariationLength(s, depth) == |s|
  {
    if s == "" {
    } else {
      NeverClosed(s[1..], if s[0] == '(' then depth + 1 else depth);
    }
  }

  /** Among words, one that is scanned as a text that resolves nowhere cuts the export. */
  lemma NowhereCuts(r: Rules, h: G.DraftHeader, start: string, inputs: seq<G.MoveInput>, v: G.Verified, k: nat)
    requires Accepted(r, h, start, inputs, v) && Exportable(h, start, inputs) && T.PlainHeader(G.ToChessHeader(h))
    requires Worded(inputs) && k < |inputs| && MovetextWriter.WordText(Trim(inputs[k].san)) != ""
    requires forall q: Position :: NextOf(r)(q, MovetextWriter.WordText(Trim(inputs[k].san))).Err?
    ensures |P.Parsed(r, v.pgn)| == 1 && |P.Parsed(r, v.pgn)[0].moves| <= k < |v.moves|
  {
    var g := Sent(h, start, inputs);
    var a, m, rest := g.moves[..k], g.moves[k], g.moves[k + 1..];
    var (num, white) := MovetextWriter.StartCounters(start);
    ExportLength(r, h, start, inputs, v);
    SentWords(r, h, start, inputs, v);
    MovetextWriter.WordsScan(start, g.moves, W.ResultText(g.header));
    CutAround(g.moves, k);
    assert MovetextWriter.WordMoves(a);
    NowhereWalk(r, ReadFen(r, start).value, a, m, rest, num, white);
  }

  lemma NowhereWalk(r: Rules, p: Position, a: seq<M.Move>, m: M.Move, rest: seq<M.Move>, num: int, white: bool)
    requires Lawful(r) && MovetextWriter.WordMoves(a) && 0 <= num <= MAX_INT64
    requires MovetextWriter.WordText(m.san) != ""
    requires forall q: Position :: NextOf(r)(q, MovetextWriter.WordText(m.san)).Err?
    ensures |Walk(r, p, MovetextWriter.WrittenSans(a + ([m] + rest), num, white, true))| <= |a| + 1
  {
    var before := MovetextWriter.SansBefore(a, num, white, true);
    var after := MovetextWriter.SansAfter(rest, num, white, |a|);
    MovetextWriter.SansCut(a, m, rest, num, white, true);
    BeforeWalk(r, p, a, num, white);
    NoFurther(NextOf(r), p, before, MovetextWriter.WordText(m.san), after);
  }

  /** An exported game is cut at a castling that the client spelled "0-0", unless the library decodes
      "-0". */
  lemma ZeroCastlingCuts(r: Rules, h: G.DraftHeader, start: string, inputs: seq<G.MoveInput>, v: G.Verified, k: nat)
    requires Accepted(r, h, start, inputs, v) && Exportable(h, start, inputs) && T.PlainHeader(G.ToChessHeader(h))
    requires Worded(inputs) && k < |inputs| && Trim(inputs[k].san) == "0-0"
    requires forall q: Position :: r.decode(q, "-0") == None
    ensures |P.Parsed(r, v.pgn)| == 1 && |P.Parsed(r, v.pgn)[0].moves| <= k < |v.moves|
  {
    ZeroText();
    MinusZeroNowhere(r);
    NowhereCuts(r, h, start, inputs, v, k);
  }

  lemma ZeroText()
    ensures MovetextWriter.WordText("0-0") == "-0" != ""
  {
    MovetextWriter.ZeroNumbered();
  }

  lemma MinusZeroNowhere(r: Rules)
    requires Lawful(r) && forall q: Position :: r.decode(q, "-0") == None
    ensures forall q: Position :: NextOf(r)(q, "-0").Err?
  {
    forall q: Position ensures NextOf(r)(q, "-0").Err? { MinusZeroIllegal(r, q); }
  }

  // ---------- exports that are cut ----------

  /** Under the rules with one legal move, a spelling that resolves to it is saved. */
  lemma LoneSaves(m: San, p: Position, spelling: string, h: G.DraftHeader)
    returns (r: Rules, inputs: seq<G.MoveInput>, v: G.Verified)
    requires WellFormed(m) && T.OneLine(spelling) && T.Unbracketed(spelling)
    requires Resolve(Lone(m), p, spelling).Ok? && T.PlainHeader(G.ToChessHeader(h))
    ensures inputs == [G.MoveInput(1, spelling, None)] && Trim(inputs[0].san) == spelling
    ensures Accepted(r, h, ToyPrint(p), inputs, v) && Exportable(h, ToyPrint(p), inputs)
    ensures forall q: Position, s: string :: s != Core(m) ==> r.decode(q, s) == None
  {
    var start := ToyPrint(p);
    r := Lone(m);
    inputs := [G.MoveInput(1, spelling, None)];
    TrimSolid(spelling);
    LoneLawful(m);
    LoneReads(m, p);
    assert G.TrimmedSans(inputs) == [spelling];
    WalkOn(r, p, [spelling], Next(r, p, spelling).value);
    assert [spelling][1..] == [];
    v := SaveOf(r, h, start, inputs);
    LoneExportable(p, spelling, h, inputs);
  }

  lemma LoneReads(m: San, p: Position)
    ensures ToyPrint(p) != "" && ReadFen(Lone(m), ToyPrint(p)) == Some(p)
  {
    ToyReadsBack(p);
  }

  /** A line that can be walked to its end is saved. */
  lemma SaveOf(r: Rules, h: G.DraftHeader, start: string, inputs: seq<G.MoveInput>) returns (v: G.Verified)
    requires Lawful(r) && ReadFen(r, start).Some? && |SavedWalk(r, start, inputs)| == |inputs| + 1
    ensures Accepted(r, h, start, inputs, v)
  {
    var fens := Fens(r, SavedWalk(r, start, inputs)[1..]);
    v := G.Verified(G.VerifiedMoves(inputs, start, fens), W.GameText(G.SavedGame(h, start, inputs, fens)), -1);
  }

  lemma LoneExportable(p: Position, spelling: string, h: G.DraftHeader, inputs: seq<G.MoveInput>)
    requires T.OneLine(spelling) && T.Unbracketed(spelling) && T.PlainHeader(G.ToChessHeader(h))
    requires inputs == [G.MoveInput(1, spelling, None)] && Trim(spelling) == spelling
    ensures Exportable(h, ToyPrint(p), inputs)
  {
    T.ToyPrinted(p);
    T.UntaggedReadable(Sent(h, ToyPrint(p), inputs));
  }

  lemma ShortLines()
    ensures T.OneLine("0-0") && T.Unbracketed("0-0") && T.OneLine(";e4") && T.Unbracketed(";e4")
  {
  }

  /** One move was saved, and the export is read as a game without moves. */
  ghost predicate OnlyMoveLost(r: Rules, v: G.Verified) {
    |v.moves| == 1 && |P.Parsed(r, v.pgn)| == 1 && P.Parsed(r, v.pgn)[0].moves == []
  }

  /** A castling saved as "0-0" is missing from the exported game. */
  lemma ZeroCastlingExample(p: Position, h: G.DraftHeader)
    returns (r: Rules, inputs: seq<G.MoveInput>, v: G.Verified)
    requires T.PlainHeader(G.ToChessHeader(h))
    ensures inputs == [G.MoveInput(1, "0-0", None)] && Accepted(r, h, ToyPrint(p), inputs, v)
    ensures OnlyMoveLost(r, v)
  {
    r, inputs, v := ZeroSaved(p, h);
    FirstZeroLost(r, h, ToyPrint(p), inputs, v);
  }

  lemma ZeroSaved(p: Position, h: G.DraftHeader) returns (r: Rules, inputs: seq<G.MoveInput>, v: G.Verified)
    requires T.PlainHeader(G.ToChessHeader(h))
    ensures inputs == [G.MoveInput(1, "0-0", None)] && Trim(inputs[0].san) == "0-0"
    ensures Accepted(r, h, ToyPrint(p), inputs, v) && Exportable(h, ToyPrint(p), inputs)
    ensures forall q: Position :: r.decode(q, "-0") == None
  {
    var m := ZeroMove(p);
    ShortLines();
    r, inputs, v := LoneSaves(m, p, "0-0", h);
  }

  lemma ZeroWorded(inputs: seq<G.MoveInput>)
    requires |inputs| == 1 && Trim(inputs[0].san) == "0-0"
    ensures Worded(inputs)
  {
    MovetextWriter.ZeroNumbered();
  }

  lemma FirstZeroLost(r: Rules, h: G.DraftHeader, start: string, inputs: seq<G.MoveInput>, v: G.Verified)
    requires Accepted(r, h, start, inputs, v) && Exportable(h, start, inputs) && T.PlainHeader(G.ToChessHeader(h))
    requires |inputs| == 1 && Trim(inputs[0].san) == "0-0" && forall q: Position :: r.decode(q, "-0") == None
    ensures OnlyMoveLost(r, v)
  {
    ZeroWorded(inputs);
    AcceptedWalk(r, h, start, inputs, v);
    ZeroCastlingCuts(r, h, start, inputs, v, 0);
  }

  lemma ZeroMove(p: Position) returns (m: San)
    ensures WellFormed(m) && Core(m) != "-0" && Resolve(Lone(m), p, "0-0").Ok?
  {
    m := Castle(false);
    var s := "0-0";
    TrimSolid(s);
    assert TrimMarks(s) == s && StripCheck(s) == s && s[3..] == "";
    assert NormalizeSan(s) == "O-O" + "" == "O-O";
    assert Core(m) == "O-O" && "O-O"[0] == 'O' && "-0"[0] == '-';
  }

  /** A pawn move saved as ";e4" is missing too. */
  lemma SemicolonExample(p: Position, h: G.DraftHeader)
    returns (r: Rules, inputs: seq<G.MoveInput>, v: G.Verified)
    requires T.PlainHeader(G.ToChessHeader(h))
    ensures inputs == [G.MoveInput(1, ";e4", None)] && Accepted(r, h, ToyPrint(p), inputs, v)
    ensures OnlyMoveLost(r, v)
  {
    var m := SemicolonMove(p);
    ShortLines();
    r, inputs, v := LoneSaves(m, p, ";e4", h);
    FirstSemicolonLost(r, h, ToyPrint(p), inputs, v);
  }

  lemma FirstSemicolonLost(r: Rules, h: G.DraftHeader, start: string, inputs: seq<G.MoveInput>, v: G.Verified)
    requires Accepted(r, h, start, inputs, v) && Exportable(h, start, inputs) && T.PlainHeader(G.ToChessHeader(h))
    requires |inputs| == 1 && ";" <= Trim(inputs[0].san)
    ensures OnlyMoveLost(r, v)
  {
    AcceptedWalk(r, h, start, inputs, v);
    SemicolonCuts(r, h, start, inputs, v, 0);
  }

  lemma SemicolonMove(p: Position) returns (m: San)
    ensures WellFormed(m) && Resolve(Lone(m), p, ";e4").Ok?
  {
    m := Pawn("", 'e', '4', None);
    PawnEncoded(p);
    SemicolonSignature();
    assert "e4"[0] != ";e4"[0];
    LoneMatches(m, p, ";e4");
  }

  /** The only legal move is found by its signature. */
  lemma LoneMatches(m: San, p: Position, s: string)
    requires NormalizeSan(s) == s != "" && s != Core(m)
    requires !SameSpelling(Lone(m), p, s, 0) && SameSignature(Lone(m), p, s, 0)
    ensures Resolve(Lone(m), p, s).Ok?
  {
    var r := Lone(m);
    assert r.valid(p) == [0] && [0][1..] == [];
    assert ExactMoves(r, p, s, [0]) == [] && MatchingMoves(r, p, s, [0]) == [0];
  }

  lemma PawnEncoded(p: Position)
    ensures var r := Lone(Pawn("", 'e', '4', None));
      Core(Pawn("", 'e', '4', None)) == "e4" && StripCheck(Encode(r, p, 0)) == "e4"
      && Signature(Encode(r, p, 0)) == "e4"
  {
    var m := Pawn("", 'e', '4', None);
    LoneLawful(m);
    assert Core(m) == "" + ['e', '4'] + "" == "e4";
    assert Encode(Lone(m), p, 0) == "e4" + "" == "e4";
    assert 0 in Lone(m).valid(p);
    SignatureOfEncoded(Lone(m), p, 0);
    EncodeSolid(Lone(m), p, 0);
    TrimSolid("e4");
  }

  lemma SemicolonSignature()
    ensures NormalizeSan(";e4") == ";e4" && StripCheck(";e4") == ";e4" && Signature(";e4") == "e4"
  {
    var s := ";e4";
    TrimSolid(s);
    assert TrimMarks(s) == s && StripCheck(s) == s && NormalizeSan(s) == s;
    assert Lacks(s, '=') && Lacks(s, 'x');
    assert PieceOf(s) == "" && BodyOf(s) == s && PromotionOf(s) == "" && CaptureOf(s) == "";
    assert s[0..] == s;
    WithoutAbsent(s, 'x');
    assert DestOf(s) == s[1..] == "e4";
    assert BareSignature(s) == "" + "" + "e4" + "";
  }
}
