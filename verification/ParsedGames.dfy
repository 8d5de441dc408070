/** Which games a text can give (chesskit/pgn.go): every parsed header fits the tag grammar and names
    its start position, and every parsed line is canonical. So a written game comes back only if its
    own header is like that, and whatever was parsed can be written and parsed again. */
module ParsedGames {
  import opened Text
  import opened ChessRules
  import opened SanMoves
  import opened PgnTags
  import opened PgnWriter
  import opened PgnParser
  import opened PgnRoundTrip
  import M = Movetext
  import W = MovetextWriter
  import Clock

  // ---------- a tag line gives a plain tag ----------

  lemma {:induction false} ReplaceLacks(s: string, what: string, with: string, c: char)
    requires what != "" && Lacks(s, c) && Lacks(with, c)
    ensures Lacks(ReplaceAll(s, what, with), c)
    decreases |s|
  {
    if |s| < |what| {
    } else if s[..|what|] == what {
      ReplaceLacks(s[|what|..], what, with, c);
    } else {
      ReplaceLacks(s[1..], what, with, c);
    }
  }

  lemma UnescapeLacks(s: string)
    requires Lacks(s, '\n')
    ensures Lacks(Unescape(s), '\n')
  {
    ReplaceLacks(s, "\\\"", "\"", '\n');
    ReplaceLacks(ReplaceAll(s, "\\\"", "\""), "\\\\", "\\", '\n');
  }

  lemma {:induction false} SkipLacks(s: string, c: char)
    requires Lacks(s, c)
    ensures Lacks(Clock.SkipReSpace(s), c)
  {
    if s == "" {
    } else {
      SkipLacks(s[1..], c);
    }
  }

  lemma {:induction false} KeyChars(s: string)
    ensures forall i :: 0 <= i < KeyLength(s) ==> IsKeyChar(s[i])
  {
    if s == "" || !IsKeyChar(s[0]) {
    } else {
      KeyChars(s[1..]);
      forall i | 0 <= i < KeyLength(s) ensures IsKeyChar(s[i]) {
        if i > 0 { assert s[i] == s[1..][i - 1]; }
      }
    }
  }

  lemma PairPlain(b: string)
    requires Lacks(b, '\n') && MatchPair(b).Some?
    ensures IsKey(MatchPair(b).value.0) && Lacks(MatchPair(b).value.1, '\n')
  {
    var k := KeyLength(b);
    KeyChars(b);
    SkipLacks(b[k..], '\n');
  }

  lemma TagPlain(line: string)
    requires Lacks(line, '\n') && MatchTag(line).Some?
    ensures IsKey(MatchTag(line).value.0) && Lacks(MatchTag(line).value.1, '\n')
  {
    var a := Clock.SkipReSpace(line);
    SkipLacks(line, '\n');
    SkipLacks(a[1..], '\n');
    PairPlain(Clock.SkipReSpace(a[1..]));
  }

  // ---------- reading tags keeps a header plain ----------

  lemma TagKept(h: Header, key: string, val: string)
    requires PlainHeader(h) && IsKey(key) && Lacks(val, '\n')
    ensures PlainHeader(ApplyTag(h, key, val))
  {
    if key !in ROSTER { NotRoster(h, key, val); } else { RosterTag(h, key, val); }
  }

  lemma RosterTag(h: Header, key: string, val: string)
    requires PlainHeader(h) && key in ROSTER && Lacks(val, '\n')
    ensures PlainHeader(ApplyTag(h, key, val))
  {
    assert key == "Event" || key == "Site" || key == "Date" || key == "Round" || key == "White" || key == "Black"
           || key == "Result";
  }

  lemma {:induction false} ReadTagsPlain(h: Header, lines: seq<string>)
    requires PlainHeader(h) && forall l :: l in lines ==> Lacks(l, '\n')
    ensures PlainHeader(ReadTags(h, lines))
    decreases |lines|
  {
    if lines == [] {
    } else {
      assert Lacks(lines[0], '\n') && forall l :: l in lines[1..] ==> l in lines;
      var m := MatchTag(lines[0]);
      if m.Some? {
        TagPlain(lines[0]);
        UnescapeLacks(m.value.1);
        TagKept(h, m.value.0, Unescape(m.value.1));
        ReadTagsPlain(ApplyTag(h, m.value.0, Unescape(m.value.1)), lines[1..]);
      } else {
        ReadTagsPlain(h, lines[1..]);
      }
    }
  }

  predicate NoneOrResult(res: string) { res == "" || M.IsResult(res) }

  lemma {:induction false} ScannedResult(s: string, st: M.Scan)
    requires NoneOrResult(st.result)
    ensures NoneOrResult(M.ScanFrom(s, st).result)
    decreases |s|
  {
    if s == "" {
    } else {
      ScannedResult(s[M.StepLength(s)..], M.StepEffect(s, st));
    }
  }

  // ---------- parsed games ----------

  /** A header that can be written and read again, with the start position it names. */
  ghost predicate PlainGame(g: Game) {
    PlainHeader(g.header) && ConsistentStart(g)
  }

  lemma StartNamed(h: Header)
    requires PlainHeader(h)
    ensures StartFen(h) != ""
    ensures StartFen(h) != STARTING_FEN ==> Solid(StartFen(h)) && Lacks(StartFen(h), '\n')
  {
    if "FEN" in h.extra {
      var f := h.extra["FEN"];
      TrimShape(f);
      TrimLeftShape(f);
      TrimRightShape(TrimLeft(f));
    }
  }

  lemma GamePlain(r: Rules, h: Header, movetext: string)
    requires PlainHeader(h) && GameOf(r, h, movetext).Some?
    ensures PlainGame(GameOf(r, h, movetext).value)
  {
    ScannedResult(movetext, M.Scan([], ""));
    StartNamed(h);
  }

  lemma ChunkPlain(r: Rules, chunk: string)
    requires ParsedChunk(r, chunk).Some?
    ensures PlainGame(ParsedChunk(r, chunk).value)
  {
    var lines := Split(chunk, '\n');
    SplitLacks(chunk, '\n');
    ReadTagsPlain(NoTags(), lines);
    GamePlain(r, ReadTags(NoTags(), lines), Trim(Join(OtherLines(lines), " ")));
  }

  /** The chunk that a game was parsed from. */
  lemma {:induction false} ChunkOf(r: Rules, chunks: seq<string>, g: Game) returns (chunk: string)
    requires g in Present(ParsedChunks(r, chunks))
    ensures ParsedChunk(r, chunk) == Some(g)
    decreases |chunks|
  {
    assert ParsedChunks(r, chunks)[1..] == ParsedChunks(r, chunks[1..]);
    if ParsedChunk(r, chunks[0]) == Some(g) { chunk := chunks[0]; } else { chunk := ChunkOf(r, chunks[1..], g); }
  }

  /** Every game parsed from any text is plain. */
  lemma ParsedPlain(r: Rules, text: string, g: Game)
    requires g in Parsed(r, text)
    ensures PlainGame(g)
  {
    var chunk := ChunkOf(r, Chunks(TextLines(text), [], false), g);
    ChunkPlain(r, chunk);
  }

  // ---------- the exact condition of the round trips ----------

  /** The normal form is plain only where the game is. */
  lemma NormalPlain(g: Game, moves: seq<M.Move>)
    requires PlainGame(Game(NormalHeader(g), moves, Start(g)))
    ensures PlainGame(g)
  {
    assert "FEN" != "SetUp" by { assert "FEN"[0] == 'F' && "SetUp"[0] == 'S'; }
    ExtraKept(g);
    PlainFields(g);
    assert Start(Game(NormalHeader(g), moves, Start(g))) == Start(g);
  }

  lemma ExtraKept(g: Game)
    ensures forall k :: k in g.header.extra ==>
      k in NormalHeader(g).extra && NormalHeader(g).extra[k] == g.header.extra[k]
  {
  }

  lemma PlainFields(g: Game)
    requires PlainHeader(NormalHeader(g))
    ensures PlainHeader(g.header)
  {
    ExtraKept(g);
  }

  // ---------- move numbers that do not fit ----------

  ghost predicate ClocksFit(g: Game) {
    forall mv :: mv in g.moves && mv.clock.Some? ==> mv.clock.value <= MAX_INT64
  }

  predicate GameNumbersFit(g: Game) {
    var (num, white) := W.StartCounters(g.startFen);
    W.NumbersFit(|g.moves|, num, white)
  }

  /** A negative number among the tokens ends the game. */
  lemma NumberEnds(r: Rules, p: Position, toks: seq<M.Token>, num: int, white: bool, rest: seq<string>)
    requires Lawful(r) && num < 0 && white && W.TokenSans(toks) == W.NumberSans(num, white, false) + rest
    ensures PlayTokens(r, p, toks) == []
  {
    NegativeIllegal(r, p, num);
    assert W.NumberSans(num, white, false) == [NumberText(num)];
    assert W.TokenSans(toks)[0] == NumberText(num) == toks[0].san;
  }

  /** A word that is scanned as a move ends the game, or leads on to some position. */
  lemma WordPlayed(r: Rules, p: Position, toks: seq<M.Token>, word: string, rest: seq<string>)
    returns (on: Option<Position>)
    requires W.WordText(word) != "" && W.TokenSans(toks) == W.WordSans(word) + rest
    ensures toks != [] && W.TokenSans(toks[1..]) == rest
    ensures |PlayTokens(r, p, toks)| == match on case None => 0 case Some(q) => 1 + |PlayTokens(r, q, toks[1..])|
  {
    assert W.TokenSans(toks)[0] == W.WordText(word) == toks[0].san;
    assert W.TokenSans(toks[1..]) == W.TokenSans(toks)[1..] == rest;
    on := match Next(r, p, toks[0].san) case Err(_) => None case Ok(q) => Some(q);
  }

  /** Every word is a move and every number fits. */
  ghost predicate Intact(moves: seq<M.Move>, num: int, white: bool) {
    W.NumberedSans(moves) && W.NumbersFit(|moves|, num, white) && (moves != [] ==> num >= 0)
  }

  lemma IntactCons(m: M.Move, rest: seq<M.Move>, num: int, white: bool)
    requires 0 <= num <= MAX_INT64 && Intact(rest, W.NextNumber(num, white), !white)
    requires W.IsWord(m.san) && Solid(m.san) && W.WordText(m.san) != ""
    ensures Intact([m] + rest, num, white)
  {
  }

  /** Of a written game of words at most its moves are played, and all of them only if it is intact. */
  lemma {:induction false} PlayedAtMost(
    r: Rules, p: Position, toks: seq<M.Token>, moves: seq<M.Move>, num: int, white: bool, first: bool)
    requires Lawful(r) && W.WordMoves(moves) && W.TokenSans(toks) == W.WrittenSans(moves, num, white, first)
    requires 0 <= num <= MAX_INT64 || (num < 0 && white && !first)
    ensures |PlayTokens(r, p, toks)| <= |moves|
    ensures |PlayTokens(r, p, toks)| == |moves| ==> Intact(moves, num, white)
    decreases |moves|, 1
  {
    if moves == [] {
    } else {
      var m, num', rest := moves[0], W.NextNumber(num, white), moves[1..];
      assert m in moves && moves == [m] + rest;
      WrittenCons(m, rest, num, white, first);
      if num < 0 {
        NumberEnds(r, p, toks, num, white, W.WordSans(m.san) + W.WrittenSans(rest, num', !white, false));
      } else {
        WordThenRest(r, p, toks, m, rest, num, white);
      }
    }
  }

  lemma WrittenCons(m: M.Move, rest: seq<M.Move>, num: int, white: bool, first: bool)
    ensures var after := W.WordSans(m.san) + W.WrittenSans(rest, W.NextNumber(num, white), !white, false);
      W.WrittenSans([m] + rest, num, white, first) == W.NumberSans(num, white, first) + after
      && (num >= 0 ==> W.WrittenSans([m] + rest, num, white, first) == after)
  {
    var after := W.WrittenSans(rest, W.NextNumber(num, white), !white, false);
    W.SansCons(m, rest, num, white, first);
    ConcatThree(W.NumberSans(num, white, first), W.WordSans(m.san), after);
    if num >= 0 { NoNumber(num, white, first, W.WordSans(m.san) + after); }
  }

  lemma NoNumber(num: int, white: bool, first: bool, after: seq<string>)
    requires num >= 0
    ensures W.NumberSans(num, white, first) + after == after
  {
  }

  lemma {:induction false} WordThenRest(
    r: Rules, p: Position, toks: seq<M.Token>, m: M.Move, rest: seq<M.Move>, num: int, white: bool)
    requires Lawful(r) && W.WordMoves(rest) && W.IsWord(m.san) && Solid(m.san) && 0 <= num <= MAX_INT64
    requires W.TokenSans(toks) == W.WordSans(m.san) + W.WrittenSans(rest, W.NextNumber(num, white), !white, false)
    ensures |PlayTokens(r, p, toks)| <= |rest| + 1
    ensures |PlayTokens(r, p, toks)| == |rest| + 1 ==> Intact([m] + rest, num, white)
    decreases |rest| + 1, 0
  {
    var num' := W.NextNumber(num, white);
    var after := W.WrittenSans(rest, num', !white, false);
    if W.WordText(m.san) == "" {
      assert W.WordSans(m.san) + after == after;
      PlayedAtMost(r, p, toks, rest, num', !white, false);
    } else {
      var on := WordPlayed(r, p, toks, m.san, after);
      if on.Some? {
        PlayedAtMost(r, on.value, toks[1..], rest, num', !white, false);
        if |PlayTokens(r, p, toks)| == |rest| + 1 { IntactCons(m, rest, num, white); }
      }
    }
  }

  /** A game of words is played to its end only if its move numbers fit. */
  lemma ScannedAtMost(r: Rules, g: Game, p: Position)
    requires Lawful(r) && PlainHeader(g.header) && W.WordMoves(g.moves)
    ensures |PlayTokens(r, p, Scanned(g).toks)| <= |g.moves|
    ensures |PlayTokens(r, p, Scanned(g).toks)| == |g.moves| ==> W.NumberedSans(g.moves) && GameNumbersFit(g)
  {
    var (num, white) := W.StartCounters(g.startFen);
    W.WordsScan(g.startFen, g.moves, ResultText(g.header));
    PlayedAtMost(r, p, Scanned(g).toks, g.moves, num, white, true);
  }

  /** A move and its token end the game both, or both lead on to the same position. */
  lemma SameStart(r: Rules, p: Position, mv: M.Move, rest: seq<M.Move>, after: seq<M.Token>)
    returns (on: Option<Position>, played: M.Move)
    requires mv.clock.Some? ==> mv.clock.value <= MAX_INT64
    ensures var toks, moves := [W.MoveToken(mv)] + after, [mv] + rest;
      match on
      case None => PlayTokens(r, p, toks) == [] == Replayed(r, p, moves)
      case Some(q) =>
        PlayTokens(r, p, toks) == [played] + PlayTokens(r, q, after)
        && Replayed(r, p, moves) == [played] + Replayed(r, q, rest)
  {
    TokenReplayed(r, p, mv, after);
    assert ([mv] + rest)[1..] == rest;
    if Resolve(r, p, mv.san).Ok? {
      var q := r.update(p, Resolve(r, p, mv.san).value.0);
      on := Some(q);
      played := M.Move(Resolve(r, p, mv.san).value.1, r.write(p), r.write(q), NormalClock(mv.clock));
    } else {
      on, played := None, mv;
    }
  }

  lemma FitsOn(n: nat, num: int, white: bool)
    requires 0 <= num <= MAX_INT64
    ensures var num' := W.NextNumber(num, white);
      W.NumbersFit(n + 1, num, white) <==> if num' < 0 then n == 0 else W.NumbersFit(n, num', !white)
    ensures W.NextNumber(num, white) < 0 ==> !white
  {
  }

  /** Playing the scanned tokens replays the moves if and only if no number that is written for a played
      move is too large. */
  lemma {:induction false} ReplayedExactly(
    r: Rules, p: Position, moves: seq<M.Move>, num: int, white: bool, first: bool)
    requires Lawful(r) && 0 <= num <= MAX_INT64
    requires forall mv :: mv in moves && mv.clock.Some? ==> mv.clock.value <= MAX_INT64
    ensures PlayTokens(r, p, W.WrittenTokens(moves, num, white, first)) == Replayed(r, p, moves)
      <==> W.NumbersFit(|Replayed(r, p, moves)|, num, white)
    decreases |moves|
  {
    if moves == [] {
    } else {
      var mv, num', rest := moves[0], W.NextNumber(num, white), moves[1..];
      var after := W.WrittenTokens(rest, num', !white, false);
      assert mv in moves && moves == [mv] + rest;
      assert W.WrittenTokens(moves, num, white, first) == [W.MoveToken(mv)] + after;
      var on, played := SameStart(r, p, mv, rest, after);
      if on.Some? {
        FitsOn(|Replayed(r, on.value, rest)|, num, white);
        if num' < 0 {
          WrappedEnds(r, on.value, rest, num');
        } else {
          ReplayedExactly(r, on.value, rest, num', !white, false);
        }
        SameTail(played, PlayTokens(r, on.value, after), Replayed(r, on.value, rest));
      }
    }
  }

  lemma SameTail(mv: M.Move, a: seq<M.Move>, b: seq<M.Move>)
    ensures [mv] + a == [mv] + b <==> a == b
  {
    assert ([mv] + a)[1..] == a && ([mv] + b)[1..] == b;
  }

  /** Behind a number that has wrapped nothing is played. */
  lemma WrappedEnds(r: Rules, p: Position, moves: seq<M.Move>, num: int)
    requires Lawful(r) && num < 0
    ensures PlayTokens(r, p, W.WrittenTokens(moves, num, true, false)) == []
  {
    if moves != [] {
      NegativeIllegal(r, p, num);
      assert W.WrittenTokens(moves, num, true, false)[0].san == NumberText(num);
    }
  }

  /** A game of safe spelling is read back if and only if the numbers of its played moves fit. */
  lemma GameReadsExactly(r: Rules, g: Game)
    requires Lawful(r) && SafeSpelling(g.moves) && ClocksFit(g) && PlainGame(g)
    ensures Readable(g)
    ensures ScannedGame(r, g) == ReadBack(r, g) <==> GameNumbersFit(ReadBack(r, g))
  {
    SafeReadable(g);
    SafeScan(g);
    StartAlike(g);
    var first := ReadFen(r, Start(g));
    if first.Some? {
      var (num, white) := W.StartCounters(g.startFen);
      assert ReadFen(r, Start(g)) == ReadFen(r, StartOf(Start(g)));
      StrippedClocks(g.moves);
      ReplayedExactly(r, first.value, W.StrippedMoves(g.moves), num, white, true);
    }
  }

  lemma SafeScan(g: Game)
    requires SafeSpelling(g.moves) && PlainGame(g)
    ensures var (num, white) := W.StartCounters(g.startFen);
      Scanned(g) == M.Scan(W.WrittenTokens(W.StrippedMoves(g.moves), num, white, true), ResultText(g.header))
    ensures ResultText(g.header) != "" && NormalHeader(g).result == ResultText(g.header)
  {
    W.WrittenScan(g.startFen, g.moves, ResultText(g.header));
  }

  lemma StartAlike(g: Game)
    ensures W.StartCounters(Start(g)) == W.StartCounters(g.startFen)
  {
    if g.startFen == "" {
      StandardCounters();
      W.EmptyCounters();
    }
  }

  /** Safely spelled games are all read back if and only if their headers fit the tag grammar and name
      their start positions, and the numbers of the played moves fit a 64-bit int. */
  lemma BundleReadsExactly(r: Rules, games: seq<Game>)
    requires Lawful(r) && forall g :: g in games ==> SafeSpelling(g.moves) && ClocksFit(g)
    ensures Parsed(r, BundleText(games)) == ReadGames(r, games)
      <==> forall g :: g in games ==> PlainGame(g) && GameNumbersFit(ReadBack(r, g))
  {
    if Parsed(r, BundleText(games)) == ReadGames(r, games) { ReadIsPlain(r, games); }
    if forall g :: g in games ==> PlainGame(g) {
      forall g | g in games
        ensures Readable(g) && (ScannedGame(r, g) == ReadBack(r, g) <==> GameNumbersFit(ReadBack(r, g)))
      {
        GameReadsExactly(r, g);
      }
      BundleScans(r, games);
      SameGames(ScannedGames(r, games), ReadGames(r, games), games, g => ScannedGame(r, g), g => ReadBack(r, g));
    }
  }

  lemma ReadIsPlain(r: Rules, games: seq<Game>)
    requires Parsed(r, BundleText(games)) == ReadGames(r, games)
    ensures forall g :: g in games ==> PlainGame(g)
  {
    forall g | g in games ensures PlainGame(g) {
      var i :| 0 <= i < |games| && games[i] == g;
      assert ReadGames(r, games)[i] in Parsed(r, BundleText(games));
      ParsedPlain(r, BundleText(games), ReadBack(r, g));
      NormalPlain(g, ReadBack(r, g).moves);
    }
  }

  /** Two images of a list are equal exactly when they agree on every element. */
  lemma SameGames(a: seq<Game>, b: seq<Game>, games: seq<Game>, f: Game -> Game, f': Game -> Game)
    requires |a| == |b| == |games| && forall i :: 0 <= i < |games| ==> a[i] == f(games[i]) && b[i] == f'(games[i])
    ensures a == b <==> forall g :: g in games ==> f(g) == f'(g)
  {
    if a == b {
      forall g | g in games ensures f(g) == f'(g) {
        var i :| 0 <= i < |games| && games[i] == g;
        assert a[i] == b[i];
      }
    }
    if forall g :: g in games ==> f(g) == f'(g) {
      forall i | 0 <= i < |games| ensures a[i] == b[i] { assert games[i] in games; }
    }
  }

  /** Canonical moves come back, with their headers in normal form, if and only if the headers fit the
      tag grammar and name their start positions and the move numbers fit a 64-bit int. */
  lemma BundleComesBackExactly(r: Rules, games: seq<Game>)
    requires Lawful(r) && forall g :: g in games ==> CanonicalMoves(r, g) && ClocksFit(g)
    ensures Parsed(r, BundleText(games)) == NormalGames(games)
      <==> forall g :: g in games ==> PlainGame(g) && GameNumbersFit(g)
  {
    if forall g :: g in games ==> PlainGame(g) && GameNumbersFit(g) {
      assert forall g :: g in games ==> Canonical(r, g);
      BundleComesBack(r, games);
    }
    if Parsed(r, BundleText(games)) == NormalGames(games) {
      BackIsPlain(r, games);
      BackFits(r, games);
    }
  }

  lemma BackIsPlain(r: Rules, games: seq<Game>)
    requires Parsed(r, BundleText(games)) == NormalGames(games)
    ensures forall g :: g in games ==> PlainGame(g)
  {
    forall g | g in games ensures PlainGame(g) {
      var i :| 0 <= i < |games| && games[i] == g;
      assert NormalGames(games)[i] in Parsed(r, BundleText(games));
      ParsedPlain(r, BundleText(games), Normal(g));
      NormalPlain(g, Normal(g).moves);
    }
  }

  lemma BackFits(r: Rules, games: seq<Game>)
    requires Lawful(r) && forall g :: g in games ==> CanonicalMoves(r, g) && PlainGame(g)
    requires Parsed(r, BundleText(games)) == NormalGames(games)
    ensures forall g :: g in games ==> GameNumbersFit(g)
  {
    forall g | g in games ensures Readable(g) { CanonicalReadable(r, g); }
    BundleScans(r, games);
    forall g | g in games ensures GameNumbersFit(g) {
      var i :| 0 <= i < |games| && games[i] == g;
      assert ScannedGames(r, games)[i] == NormalGames(games)[i];
      NumbersCameBack(r, g);
    }
  }

  lemma CanonicalReadable(r: Rules, g: Game)
    requires Lawful(r) && CanonicalMoves(r, g) && PlainGame(g)
    ensures Readable(g) && W.WordMoves(g.moves)
  {
    var first := ReadFen(r, Start(g));
    if first.Some? {
      LineSafe(r, first.value, g.moves);
      forall mv | mv in g.moves ensures OneLine(mv.san) && Unbracketed(mv.san) && W.IsWord(mv.san) {
        assert W.WordSafe(mv.san) && W.Numbered(mv.san) && mv.san[0] != '[';
      }
    }
    UntaggedReadable(g);
  }

  lemma NumbersCameBack(r: Rules, g: Game)
    requires Lawful(r) && CanonicalMoves(r, g) && PlainGame(g) && ScannedGame(r, g) == Normal(g)
    ensures GameNumbersFit(g)
  {
    CanonicalReadable(r, g);
    var first := ReadFen(r, Start(g));
    if first.Some? {
      assert ReadFen(r, Start(g)) == ReadFen(r, StartOf(Start(g)));
      ScannedAtMost(r, g, first.value);
    }
  }

  // ---------- whatever was parsed can be written and parsed again ----------

  /** Parsed moves are canonical and legal, one after the other. */
  lemma {:induction false} PlayedCanonical(r: Rules, p: Position, toks: seq<M.Token>)
    requires Lawful(r)
    ensures CanonicalLine(r, p, PlayTokens(r, p, toks))
    decreases |toks|
  {
    if toks == [] {
    } else if Resolve(r, p, toks[0].san).Ok? {
      var m := Resolve(r, p, toks[0].san).value.0;
      var moves := PlayTokens(r, p, toks);
      ResolvedIsLegal(r, p, toks[0].san);
      PlayedCanonical(r, r.update(p, m), toks[1..]);
      assert IsPlayed(r, p, m, moves[0]) && moves[1..] == PlayTokens(r, r.update(p, m), toks[1..]);
    }
  }

  lemma {:induction false} ClockFits(comment: string)
    ensures Clock.ClockFromComment(comment).Some? ==> Clock.ClockFromComment(comment).value <= MAX_INT64
  {
    if comment == "" {
    } else {
      ClockFits(comment[1..]);
    }
  }

  lemma {:induction false} PlayedClocks(r: Rules, p: Position, toks: seq<M.Token>)
    ensures forall mv :: mv in PlayTokens(r, p, toks) && mv.clock.Some? ==> mv.clock.value <= MAX_INT64
    decreases |toks|
  {
    if toks == [] {
    } else if Resolve(r, p, toks[0].san).Ok? {
      var q, moves := r.update(p, Resolve(r, p, toks[0].san).value.0), PlayTokens(r, p, toks);
      PlayedClocks(r, q, toks[1..]);
      ClockFits(toks[0].comment);
      assert moves == [moves[0]] + PlayTokens(r, q, toks[1..]);
    }
  }

  /** The line of a parsed game. */
  lemma ChunkLine(r: Rules, chunk: string)
    requires Lawful(r) && ParsedChunk(r, chunk).Some?
    ensures var g := ParsedChunk(r, chunk).value; CanonicalMoves(r, g) && ClocksFit(g)
  {
    var g := ParsedChunk(r, chunk).value;
    var toks := M.Tokenize(Trim(Join(OtherLines(Split(chunk, '\n')), " "))).toks;
    assert g.moves == ParsedMoves(r, g.startFen, toks);
    LineOf(r, g, toks);
  }

  lemma LineOf(r: Rules, g: Game, toks: seq<M.Token>)
    requires Lawful(r) && g.moves == ParsedMoves(r, g.startFen, toks)
    ensures CanonicalMoves(r, g) && ClocksFit(g)
  {
    assert ReadFen(r, Start(g)) == ReadFen(r, g.startFen);
    var first := ReadFen(r, g.startFen);
    if first.Some? {
      PlayedCanonical(r, first.value, toks);
      PlayedClocks(r, first.value, toks);
    }
  }

  /** Every game parsed from any text is canonical, but for numbers that may not fit. */
  lemma ParsedLines(r: Rules, text: string, g: Game)
    requires Lawful(r) && g in Parsed(r, text)
    ensures CanonicalMoves(r, g) && ClocksFit(g) && PlainGame(g)
  {
    var chunk := ChunkOf(r, Chunks(TextLines(text), [], false), g);
    ChunkPlain(r, chunk);
    ChunkLine(r, chunk);
  }

  /** Every parsed game whose move numbers fit a 64-bit int is canonical. */
  lemma ParsedCanonical(r: Rules, text: string, g: Game)
    requires Lawful(r) && g in Parsed(r, text) && GameNumbersFit(g)
    ensures Canonical(r, g)
  {
    ParsedLines(r, text, g);
  }

  /** Any text, parsed, written and parsed again, gives the same games, up to default tags and negative
      clocks, if and only if their move numbers fit; and from then on the same text. */
  lemma Reparses(r: Rules, text: string)
    requires Lawful(r)
    ensures var games := Parsed(r, text);
      Parsed(r, BundleText(games)) == NormalGames(games) <==> forall g :: g in games ==> GameNumbersFit(g)
    ensures var games := Parsed(r, text);
      Parsed(r, BundleText(games)) == NormalGames(games)
      ==> BundleText(Parsed(r, BundleText(games))) == BundleText(games)
  {
    var games := Parsed(r, text);
    forall g | g in games ensures CanonicalMoves(r, g) && ClocksFit(g) && PlainGame(g) { ParsedLines(r, text, g); }
    BundleComesBackExactly(r, games);
    if forall g :: g in games ==> GameNumbersFit(g) {
      forall g | g in games ensures Canonical(r, g) { ParsedCanonical(r, text, g); }
      PrintsAgain(r, games);
    }
  }

  // ---------- games that do not come back ----------

  lemma AloneLost(r: Rules, g: Game)
    requires Lawful(r) && CanonicalMoves(r, g) && ClocksFit(g) && !(PlainGame(g) && GameNumbersFit(g))
    ensures Parsed(r, BundleText([g])) != NormalGames([g])
  {
    BundleComesBackExactly(r, [g]);
    assert g in [g];
  }

  /** A line end in a tag value, a roster tag or "Board" among the extra tags: the game does not come
      back. */
  lemma LineEndLost(event: string) returns (g: Game)
    requires !Lacks(event, '\n')
    ensures CanonicalMoves(Toy(), g) && ClocksFit(g) && g.header.event == event && |g.moves| == 1
    ensures Parsed(Toy(), BundleText([g])) != NormalGames([g])
  {
    var plain := ToyGame();
    g := plain.(header := plain.header.(event := event));
    ToyBroken(plain, g);
  }

  lemma ExtraTagLost(key: string, val: string) returns (g: Game)
    requires key in ROSTER || key == "Board" || !IsKey(key)
    ensures CanonicalMoves(Toy(), g) && ClocksFit(g) && key in g.header.extra && g.header.extra[key] == val
    ensures Parsed(Toy(), BundleText([g])) != NormalGames([g])
  {
    var plain := ToyGame();
    g := plain.(header := plain.header.(extra := map[key := val]));
    ToyBroken(plain, g);
  }

  /** With the largest move counter and Black to move, a line of two moves does not come back. */
  lemma NumberLost(p: Position) returns (g: Game)
    requires p == 2 * (MAX_INT64 - 1) + 1
    ensures CanonicalMoves(Toy(), g) && ClocksFit(g) && PlainGame(g) && g.startFen == ToyPrint(p) && |g.moves| == 2
    ensures Parsed(Toy(), BundleText([g])) != NormalGames([g])
  {
    var moves := ToyPair(p);
    g := Game(NoTags(), moves, ToyPrint(p));
    LateGame(p, g);
    ToyLawful();
    AloneLost(Toy(), g);
  }

  lemma LateGame(p: Position, g: Game)
    requires p == 2 * (MAX_INT64 - 1) + 1 && g.header == NoTags() && g.startFen == ToyPrint(p) && |g.moves| == 2
    requires CanonicalLine(Toy(), p, g.moves)
    ensures CanonicalMoves(Toy(), g) && PlainGame(g) && !GameNumbersFit(g)
  {
    ToyPrinted(p);
    ToyReadsBack(p);
    ToyCounters(p);
  }

  lemma ToyPair(p: Position) returns (moves: seq<M.Move>)
    ensures CanonicalLine(Toy(), p, moves) && |moves| == 2
    ensures forall mv :: mv in moves ==> mv.clock == None
  {
    var a := ToyMove(p);
    var b := ToyMove(p + 1);
    LineCons(Toy(), p + 1, 0, b, []);
    LineCons(Toy(), p, 0, a, [b] + []);
    moves := [a] + ([b] + []);
  }

  lemma ToyMove(p: Position) returns (mv: M.Move)
    ensures IsPlayed(Toy(), p, 0, mv) && Toy().update(p, 0) == p + 1 && mv.clock == None
  {
    var r := Toy();
    mv := M.Move(Encode(r, p, 0), r.write(p), r.write(p + 1), None);
    assert r.valid(p) == [0, 1] && 0 in r.valid(p) && r.update(p, 0) == p + 1;
  }

  lemma LineCons(r: Rules, p: Position, m: Move, mv: M.Move, rest: seq<M.Move>)
    requires IsPlayed(r, p, m, mv) && CanonicalLine(r, r.update(p, m), rest)
    ensures CanonicalLine(r, p, [mv] + rest)
  {
    assert ([mv] + rest)[0] == mv && ([mv] + rest)[1..] == rest;
  }

  lemma ToyBroken(plain: Game, g: Game)
    requires Canonical(Toy(), plain) && g.moves == plain.moves && g.startFen == plain.startFen && !PlainHeader(g.header)
    ensures CanonicalMoves(Toy(), g) && ClocksFit(g)
    ensures Parsed(Toy(), BundleText([g])) != NormalGames([g])
  {
    ToyLawful();
    assert CanonicalMoves(Toy(), g) && ClocksFit(g);
    AloneLost(Toy(), g);
  }
}
