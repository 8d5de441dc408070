/** Splitting PGN text into games and parsing each (chesskit/pgn.go). */
module PgnParser {
  import opened Text
  import opened ChessRules
  import opened SanMoves
  import opened PgnTags
  import opened PgnWriter
  import M = Movetext
  import Clock

  // ---------- splitting a text into games ----------

  predicate IsTag(line: string) {
    MatchTag(line).Some?
  }

  function Flush(cur: seq<string>): seq<string> {
    if cur == [] || Trim(Join(cur, "\n")) == "" then [] else [Trim(Join(cur, "\n"))]
  }

  /** The chunks of the remaining lines; cur is the open chunk, seen whether it has movetext. */
  function Chunks(lines: seq<string>, cur: seq<string>, seen: bool): seq<string>
    decreases |lines|
  {
    if lines == [] then Flush(cur)
    else if IsTag(lines[0]) && seen then Flush(cur) + Chunks(lines[1..], [lines[0]], false)
    else
      Chunks(lines[1..], cur + [lines[0]], seen || (!IsTag(lines[0]) && Trim(lines[0]) != ""))
  }

  function TextLines(text: string): seq<string> {
    Split(ReplaceAll(text, "\r\n", "\n"), '\n')
  }

  lemma ChunksStep(lines: seq<string>, i: nat, cur: seq<string>, seen: bool, chunks: seq<string>)
    requires i < |lines|
    ensures var ln, fresh' := lines[i], IsTag(lines[i]) && seen;
      chunks + Chunks(lines[i..], cur, seen)
      == (if fresh' then chunks + Flush(cur) else chunks)
         + Chunks(lines[i + 1..], (if fresh' then [] else cur) + [ln],
                  (seen && !fresh') || (!IsTag(ln) && Trim(ln) != ""))
  {
    assert lines[i..][1..] == lines[i + 1..];
    assert [] + [lines[i]] == [lines[i]];
  }

  method SplitGames(text: string) returns (chunks: seq<string>)
    ensures chunks == Chunks(TextLines(text), [], false)
  {
    var lines := Split(ReplaceAll(text, "\r\n", "\n"), '\n');
    chunks := [];
    var cur: seq<string>, seen := [], false;
    for i := 0 to |lines|
      invariant chunks + Chunks(lines[i..], cur, seen) == Chunks(lines, [], false)
    {
      var ln := lines[i];
      ChunksStep(lines, i, cur, seen, chunks);
      var isTag := IsTag(ln);
      if isTag && seen {
        chunks := chunks + Flush(cur);
        cur, seen := [], false;
      }
      if !isTag && Trim(ln) != "" { seen := true; }
      cur := cur + [ln];
    }
    chunks := chunks + Flush(cur);
  }

  // ---------- parsing one game ----------

  /** The header after reading the tag lines among lines. */
  function ReadTags(h: Header, lines: seq<string>): Header
    decreases |lines|
  {
    if lines == [] then h
    else match MatchTag(lines[0])
      case Some((key, val)) => ReadTags(ApplyTag(h, key, Unescape(val)), lines[1..])
      case None => ReadTags(h, lines[1..])
  }

  function OtherLines(lines: seq<string>): seq<string> {
    if lines == [] then []
    else (if IsTag(lines[0]) then [] else [lines[0]]) + OtherLines(lines[1..])
  }

  /** Plays tokens from p for as long as they resolve. */
  function PlayTokens(r: Rules, p: Position, toks: seq<M.Token>): (moves: seq<M.Move>)
    ensures |moves| <= |toks|
    decreases |toks|
  {
    if toks == [] then []
    else match Resolve(r, p, toks[0].san)
      case Err(_) => []
      case Ok((m, canonical)) =>
        var q := r.update(p, m);
        [M.Move(canonical, r.write(p), r.write(q), Clock.ClockFromComment(toks[0].comment))]
        + PlayTokens(r, q, toks[1..])
  }

  function ParsedMoves(r: Rules, start: string, toks: seq<M.Token>): seq<M.Move> {
    match ReadFen(r, start)
    case None => []
    case Some(p) => PlayTokens(r, p, toks)
  }

  method ParseMovetext(r: Rules, movetext: string, start: string)
    returns (moves: seq<M.Move>, result: string)
    ensures moves == ParsedMoves(r, start, M.Tokenize(movetext).toks)
    ensures result == M.Tokenize(movetext).result
  {
    var toks;
    toks, result := M.TokenizeMovetext(movetext);
    assert M.Scan(toks, result).toks == toks;
    var first := ReadFen(r, start);
    moves := [];
    if first.None? { return; }
    moves := ReplayTokens(r, first.value, toks);
  }

  lemma PlayStep(r: Rules, pos: Position, toks: seq<M.Token>, i: nat, moves: seq<M.Move>)
    requires i < |toks|
    ensures Resolve(r, pos, toks[i].san).Err? ==> PlayTokens(r, pos, toks[i..]) == []
    ensures Resolve(r, pos, toks[i].san).Ok? ==>
      var (m, canonical) := Resolve(r, pos, toks[i].san).value;
      moves + PlayTokens(r, pos, toks[i..])
      == moves + [M.Move(canonical, r.write(pos), r.write(r.update(pos, m)), Clock.ClockFromComment(toks[i].comment))]
         + PlayTokens(r, r.update(pos, m), toks[i + 1..])
  {
    assert toks[i..][1..] == toks[i + 1..];
  }

  /** The replaying loop. */
  method ReplayTokens(r: Rules, first: Position, toks: seq<M.Token>) returns (moves: seq<M.Move>)
    ensures moves == PlayTokens(r, first, toks)
  {
    var pos := first;
    moves := [];
    assert toks[0..] == toks;
    for i := 0 to |toks|
      invariant moves + PlayTokens(r, pos, toks[i..]) == PlayTokens(r, first, toks)
    {
      PlayStep(r, pos, toks, i, moves);
      var res := ResolveMove(r, pos, toks[i].san);
      if res.Err? { return; }
      var before := pos;
      pos := r.update(pos, res.value.0);
      moves := moves + [M.Move(res.value.1, r.write(before), r.write(pos),
                               Clock.ClockFromComment(toks[i].comment))];
    }
  }

  /** A game, or None for a chunk that holds neither tags nor moves nor a result. */
  function GameOf(r: Rules, h0: Header, movetext: string): Option<Game> {
    var start := StartFen(h0);
    var scan := M.Tokenize(movetext);
    var moves := ParsedMoves(r, start, scan.toks);
    var h := if scan.result != "" then h0.(result := scan.result) else h0;
    if moves == [] && h.event == "" && h.white == "" && h.black == "" && h.site == ""
       && h.extra == map[] && scan.result == "" then None
    else Some(Game(h, moves, start))
  }

  function ParsedChunk(r: Rules, chunk: string): Option<Game> {
    var lines := Split(chunk, '\n');
    GameOf(r, ReadTags(NoTags(), lines), Trim(Join(OtherLines(lines), " ")))
  }

  lemma LinesStep(h: Header, others: seq<string>, lines: seq<string>, i: nat)
    requires i < |lines|
    ensures var m := MatchTag(lines[i]);
      && ReadTags(h, lines[i..])
         == ReadTags(if m.Some? then ApplyTag(h, m.value.0, Unescape(m.value.1)) else h, lines[i + 1..])
      && others + OtherLines(lines[i..])
         == (if m.Some? then others else others + [lines[i]]) + OtherLines(lines[i + 1..])
  {
    assert lines[i..][1..] == lines[i + 1..];
  }

  method ReadLines(lines: seq<string>) returns (hdr: Header, movetextLines: seq<string>)
    ensures hdr == ReadTags(NoTags(), lines)
    ensures movetextLines == OtherLines(lines)
  {
    hdr := NoTags();
    movetextLines := [];
    assert lines[0..] == lines;
    for i := 0 to |lines|
      invariant ReadTags(hdr, lines[i..]) == ReadTags(NoTags(), lines)
      invariant movetextLines + OtherLines(lines[i..]) == OtherLines(lines)
    {
      LinesStep(hdr, movetextLines, lines, i);
      var m := MatchTag(lines[i]);
      if m.Some? {
        hdr := ApplyTag(hdr, m.value.0, Unescape(m.value.1));
        continue;
      }
      movetextLines := movetextLines + [lines[i]];
    }
    assert lines[|lines|..] == [];
  }

  method FinishGame(r: Rules, hdr: Header, movetext: string) returns (g: Option<Game>)
    ensures g == GameOf(r, hdr, movetext)
  {
    var start := StartFen(hdr);
    var moves, res := ParseMovetext(r, movetext, start);
    var h := hdr;
    if res != "" { h := hdr.(result := res); }
    if moves == [] && h.event == "" && h.white == "" && h.black == "" && h.site == ""
       && h.extra == map[] && res == "" {
      return None;
    }
    return Some(Game(h, moves, start));
  }

  method ParseOneGame(r: Rules, chunk: string) returns (g: Option<Game>)
    ensures g == ParsedChunk(r, chunk)
  {
    var lines := Split(chunk, '\n');
    var hdr, movetextLines := ReadLines(lines);
    g := FinishGame(r, hdr, Trim(Join(movetextLines, " ")));
  }

  function Present(found: seq<Option<Game>>): seq<Game> {
    if found == [] then []
    else (match found[0] case None => [] case Some(g) => [g]) + Present(found[1..])
  }

  lemma {:induction false} PresentSnoc(found: seq<Option<Game>>, g: Option<Game>)
    ensures Present(found + [g]) == Present(found) + match g case None => [] case Some(v) => [v]
  {
    if found == [] {
      assert found + [g] == [g];
    } else {
      assert (found + [g])[1..] == found[1..] + [g];
      PresentSnoc(found[1..], g);
    }
  }

  function ParsedChunks(r: Rules, chunks: seq<string>): (found: seq<Option<Game>>)
    ensures |found| == |chunks|
    ensures forall i :: 0 <= i < |chunks| ==> found[i] == ParsedChunk(r, chunks[i])
  {
    seq(|chunks|, i requires 0 <= i < |chunks| => ParsedChunk(r, chunks[i]))
  }

  /** The games of a text. */
  function Parsed(r: Rules, text: string): seq<Game> {
    Present(ParsedChunks(r, Chunks(TextLines(text), [], false)))
  }

  /** Taking one more chunk. */
  lemma NextPresent(all: seq<Option<Game>>, i: nat)
    requires i < |all|
    ensures Present(all[..i + 1]) == Present(all[..i]) + match all[i] case None => [] case Some(v) => [v]
  {
    PresentSnoc(all[..i], all[i]);
    assert all[..i + 1] == all[..i] + [all[i]];
  }

  method ParseNth(r: Rules, chunks: seq<string>, i: nat) returns (g: Option<Game>)
    requires i < |chunks|
    ensures g == ParsedChunks(r, chunks)[i]
  {
    g := ParseOneGame(r, chunks[i]);
  }

  method ParsePgn(r: Rules, text: string) returns (games: seq<Game>)
    ensures games == Parsed(r, text)
  {
    var chunks := SplitGames(text);
    games := [];
    for i := 0 to |chunks|
      invariant games == Present(ParsedChunks(r, chunks)[..i])
    {
      var g := ParseNth(r, chunks, i);
      NextPresent(ParsedChunks(r, chunks), i);
      if g.Some? { games := games + [g.value]; }
    }
    assert ParsedChunks(r, chunks)[..|chunks|] == ParsedChunks(r, chunks);
  }
}
