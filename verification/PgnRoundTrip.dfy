/** Parsing what was written: any game on lines that can be told apart is read back as its movetext is
    scanned; one spelled in words comes back in canonical spelling, cut at its first unplayable move; a
    canonical game comes back as it was. */
module PgnRoundTrip {
  import opened Text
  import opened Sorting
  import opened ChessRules
  import opened SanMoves
  import opened PgnTags
  import opened PgnWriter
  import opened PgnParser
  import M = Movetext
  import W = MovetextWriter
  import Clock

  // ---------- games that survive ----------

  ghost predicate IsPlayed(r: Rules, p: Position, m: Move, mv: M.Move) {
    && m in r.valid(p) && mv.san == Encode(r, p, m)
    && mv.fromFen == r.write(p) && mv.toFen == r.write(r.update(p, m))
  }

  /** The moves are legal from p, in canonical notation, with their positions. */
  ghost predicate CanonicalLine(r: Rules, p: Position, moves: seq<M.Move>)
    decreases |moves|
  {
    moves == [] || exists m :: IsPlayed(r, p, m, moves[0]) && CanonicalLine(r, r.update(p, m), moves[1..])
  }

  function Start(g: Game): string {
    StartOf(g.startFen)
  }

  /** Moves that the scanner reads as moves, legal or not, but for a leading number. */
  ghost predicate SafeSpelling(moves: seq<M.Move>) {
    forall mv :: mv in moves ==> W.Numbered(mv.san) && mv.san[0] != '['
  }

  /** Clocks and move numbers fit Go's int. */
  ghost predicate FitsInt(g: Game) {
    && (forall mv :: mv in g.moves && mv.clock.Some? ==> mv.clock.value <= MAX_INT64)
    && W.NumbersFit(|g.moves|, W.StartCounters(g.startFen).0, W.StartCounters(g.startFen).1)
  }

  ghost predicate CanonicalMoves(r: Rules, g: Game) {
    match ReadFen(r, Start(g)) case None => g.moves == [] case Some(p) => CanonicalLine(r, p, g.moves)
  }

  ghost predicate PlainHeader(h: Header) {
    && Lacks(h.event, '\n') && Lacks(h.site, '\n') && Lacks(h.date, '\n') && Lacks(h.round, '\n')
    && Lacks(h.white, '\n') && Lacks(h.black, '\n') && Lacks(h.board, '\n')
    && (h.result == "" || M.IsResult(h.result))
    && (forall k :: k in h.extra ==> IsKey(k) && k !in ROSTER && k != "Board" && Lacks(h.extra[k], '\n'))
  }

  /** The FEN tag that will be written names the start position of the game. */
  predicate ConsistentStart(g: Game) {
    && (Start(g) != STARTING_FEN ==> Solid(g.startFen) && Lacks(g.startFen, '\n'))
    && ("FEN" in g.header.extra ==>
          var f := Trim(g.header.extra["FEN"]);
          f == Start(g) || (f == "" && Start(g) == STARTING_FEN))
  }

  /** A game whose text falls into the lines it was written in. */
  ghost predicate Readable(g: Game) {
    && (forall mv :: mv in g.moves ==> OneLine(mv.san))
    && (forall l :: l in MoveLines(g) ==> !IsTag(l))
    && PlainHeader(g.header) && ConsistentStart(g)
  }

  /** Text on one line, with visible ends. */
  predicate OneLine(l: string) {
    Solid(l) && Lacks(l, '\n')
  }

  /** A game that can be written and read again. */
  ghost predicate Writable(g: Game) {
    SafeSpelling(g.moves) && FitsInt(g) && PlainHeader(g.header) && ConsistentStart(g)
  }

  ghost predicate Canonical(r: Rules, g: Game) {
    CanonicalMoves(r, g) && FitsInt(g) && PlainHeader(g.header) && ConsistentStart(g)
  }

  // ---------- the normal form ----------

  function OrElse(s: string, default: string): string {
    if s == "" then default else s
  }

  function NormalHeader(g: Game): Header {
    var h := g.header;
    Header(OrElse(h.event, "?"), OrElse(h.site, "?"), OrElse(h.date, "????.??.??"), OrElse(h.round, "?"),
           OrElse(h.white, "?"), OrElse(h.black, "?"), h.board, OrElse(h.result, "*"),
           WithStart(h.extra, g.startFen))
  }

  function NormalClock(c: Option<int>): Option<int> {
    match c case None => None case Some(sec) => Some(if sec < 0 then 0 else sec)
  }

  function NormalMove(mv: M.Move): M.Move {
    mv.(clock := NormalClock(mv.clock))
  }

  function NormalMoves(moves: seq<M.Move>): (normal: seq<M.Move>)
    ensures |normal| == |moves|
    ensures forall i :: 0 <= i < |moves| ==> normal[i] == NormalMove(moves[i])
  {
    Map(NormalMove, moves)
  }

  /** Default roster values, an explicit result and start position, SetUp/FEN tags, no negative
      clock. */
  function Normal(g: Game): Game {
    Game(NormalHeader(g), NormalMoves(g.moves), Start(g))
  }

  /** The moves from p on in canonical spelling, with their positions, up to the first that cannot
      be played. */
  function Replayed(r: Rules, p: Position, moves: seq<M.Move>): (played: seq<M.Move>)
    ensures |played| <= |moves|
    decreases |moves|
  {
    if moves == [] then []
    else match Resolve(r, p, moves[0].san)
      case Err(_) => []
      case Ok((m, canonical)) =>
        var q := r.update(p, m);
        [M.Move(canonical, r.write(p), r.write(q), NormalClock(moves[0].clock))] + Replayed(r, q, moves[1..])
  }

  /** What reading a written game gives: its moves lose their leading numbers. */
  function ReadBack(r: Rules, g: Game): Game {
    Game(NormalHeader(g),
         match ReadFen(r, Start(g)) case None => [] case Some(p) => Replayed(r, p, W.StrippedMoves(g.moves)),
         Start(g))
  }

  /** What the scanner finds in the movetext of a written game. */
  function Scanned(g: Game): M.Scan {
    M.Tokenize(Join(W.Parts(g.startFen, g.moves, ResultText(g.header)), " "))
  }

  /** What reading a written game gives, whatever its moves are. */
  function ScannedGame(r: Rules, g: Game): Game {
    Game(NormalHeader(g).(result := OrElse(Scanned(g).result, ResultText(g.header))),
         ParsedMoves(r, Start(g), Scanned(g).toks), Start(g))
  }

  // ---------- canonical notation is safe ----------

  predicate SanChar(c: char) {
    'A' <= c <= 'Z' || 'a' <= c <= 'h' || IsDigit(c) || c == 'x' || c == '=' || c == '-' || c == '+' || c == '#'
  }

  lemma CoreChars(m: San)
    requires WellFormed(m)
    ensures forall i :: 0 <= i < |Core(m)| ==> SanChar(Core(m)[i])
    ensures 'A' <= Core(m)[0] <= 'Z' || 'a' <= Core(m)[0] <= 'h'
  {
    match m
    case Castle(long) =>
    case Piece(letter, from, capture, file, rank) =>
      assert forall i :: 0 <= i < |from| ==> SanChar(from[i]);
    case Pawn(from, file, rank, promo) =>
      assert forall i :: 0 <= i < |from| ==> SanChar(from[i]);
      assert Core(m)[0] == if from == "" then file else from[0];
  }

  lemma SafeChars(s: string)
    requires Solid(s) && (forall i :: 0 <= i < |s| ==> SanChar(s[i]))
    requires 'A' <= s[0] <= 'Z' || 'a' <= s[0] <= 'h'
    ensures W.WordSafe(s) && s[0] != '['
  {
    forall i | 0 <= i < |s| ensures !M.EndsWord(s[i]) { assert SanChar(s[i]); }
    assert "1-0"[0] == '1' && "0-1"[0] == '0' && "1/2-1/2"[0] == '1' && "*"[0] == '*';
  }

  lemma EncodedSafe(r: Rules, p: Position, m: Move)
    requires Lawful(r) && m in r.valid(p)
    ensures W.WordSafe(Encode(r, p, m)) && Encode(r, p, m)[0] != '['
  {
    var core, s := Core(r.san(p, m)), Encode(r, p, m);
    EncodeSolid(r, p, m);
    assert WellFormed(r.san(p, m));
    CoreChars(r.san(p, m));
    assert s[0] == core[0];
    forall i | 0 <= i < |s| ensures SanChar(s[i]) {
      if i < |core| { assert s[i] == core[i]; }
    }
    SafeChars(s);
  }

  // ---------- lines ----------

  /** A movetext line. */
  predicate Nice(l: string) {
    OneLine(l) && !IsTag(l)
  }

  predicate Unbracketed(l: string) {
    l != "" && l[0] != '['
  }

  lemma NiceUntagged(l: string)
    requires OneLine(l) && Unbracketed(l)
    ensures Nice(l)
  {
    assert Clock.SkipReSpace(l) == l;
  }

  lemma {:induction false} JoinOneLine(parts: seq<string>)
    requires parts != [] && forall p :: p in parts ==> OneLine(p)
    ensures OneLine(Join(parts, " ")) && Join(parts, " ")[0] == parts[0][0]
  {
    assert OneLine(parts[0]);
    if |parts| == 1 {
    } else {
      assert forall p :: p in parts[1..] ==> p in parts;
      JoinOneLine(parts[1..]);
    }
  }

  lemma NumberOneLine(num: int, dots: string)
    requires dots == "." || dots == "..."
    ensures OneLine(FormatInt(num) + dots) && Unbracketed(FormatInt(num) + dots)
  {
    var d := Decimal(if num < 0 then -num else num);
    var l := FormatInt(num) + dots;
    assert Lacks(d, '\n') && IsDigit(d[0]);
    assert Lacks(FormatInt(num), '\n');
    assert l[|l| - 1] == '.';
  }

  lemma ClockOneLine(sec: int)
    ensures OneLine("{[%clk " + Clock.FormatClock(sec) + "]}")
  {
    var n := if sec < 0 then 0 else sec;
    var h, m, s := Decimal(n / 3600), Clock.TwoDigits(n % 3600 / 60), Clock.TwoDigits(n % 60);
    assert Lacks(h, '\n') && Lacks(m, '\n') && Lacks(s, '\n');
    var clock := h + ":" + m + ":" + s;
    assert Lacks(clock, '\n') && clock == Clock.FormatClock(sec);
    assert Lacks("{[%clk ", '\n') && Lacks("]}", '\n');
    var l := "{[%clk " + clock + "]}";
    assert l[|l| - 1] == '}';
  }

  /** The parts of a movetext are on one line each, and start with a bracket only if a move does. */
  lemma {:induction false} PartsOneLine(moves: seq<M.Move>, num: int, white: bool, first: bool)
    requires forall mv :: mv in moves ==> OneLine(mv.san)
    ensures forall p :: p in W.MoveParts(moves, num, white, first) ==> OneLine(p)
    ensures (forall mv :: mv in moves ==> Unbracketed(mv.san)) ==>
      forall p :: p in W.MoveParts(moves, num, white, first) ==> Unbracketed(p)
    decreases |moves|
  {
    if moves == [] {
    } else {
      assert moves[0] in moves;
      NumberOneLine(num, ".");
      NumberOneLine(num, "...");
      if moves[0].clock.Some? { ClockOneLine(moves[0].clock.value); }
      PartsOneLine(moves[1..], W.NextNumber(num, white), !white, false);
    }
  }

  lemma ResultOneLine(res: string)
    requires M.IsResult(res)
    ensures OneLine(res) && Unbracketed(res)
  {
  }

  lemma HeadPlayed(r: Rules, p: Position, moves: seq<M.Move>) returns (m: Move)
    requires CanonicalLine(r, p, moves) && moves != []
    ensures IsPlayed(r, p, m, moves[0]) && CanonicalLine(r, r.update(p, m), moves[1..])
  {
    m :| IsPlayed(r, p, m, moves[0]) && CanonicalLine(r, r.update(p, m), moves[1..]);
  }

  lemma PlayedWord(r: Rules, p: Position, m: Move, mv: M.Move)
    requires Lawful(r) && IsPlayed(r, p, m, mv)
    ensures W.WordSafe(mv.san) && Unbracketed(mv.san)
  {
    EncodedSafe(r, p, m);
  }

  lemma {:induction false} LineWords(r: Rules, p: Position, moves: seq<M.Move>)
    requires Lawful(r) && CanonicalLine(r, p, moves)
    ensures W.SafeMoves(moves) && forall mv :: mv in moves ==> Unbracketed(mv.san)
    decreases |moves|
  {
    if moves == [] {
    } else {
      var m := HeadPlayed(r, p, moves);
      PlayedWord(r, p, m, moves[0]);
      LineWords(r, r.update(p, m), moves[1..]);
      WordsCons(moves[0], moves[1..]);
      assert moves == [moves[0]] + moves[1..];
    }
  }

  lemma WordsCons(mv: M.Move, rest: seq<M.Move>)
    requires W.WordSafe(mv.san) && Unbracketed(mv.san)
    requires W.SafeMoves(rest) && forall x :: x in rest ==> Unbracketed(x.san)
    ensures W.SafeMoves([mv] + rest) && forall x :: x in [mv] + rest ==> Unbracketed(x.san)
  {
  }

  lemma LineSafe(r: Rules, p: Position, moves: seq<M.Move>)
    requires Lawful(r) && CanonicalLine(r, p, moves)
    ensures SafeSpelling(moves) && W.SafeMoves(moves)
  {
    LineWords(r, p, moves);
    forall mv | mv in moves ensures W.Numbered(mv.san) { W.SafeIsNumbered(mv.san); }
  }

  lemma GamePartsOneLine(g: Game)
    requires PlainHeader(g.header) && forall mv :: mv in g.moves ==> OneLine(mv.san)
    ensures forall p :: p in W.Parts(g.startFen, g.moves, ResultText(g.header)) ==> OneLine(p)
    ensures (forall mv :: mv in g.moves ==> Unbracketed(mv.san)) ==>
      forall p :: p in W.Parts(g.startFen, g.moves, ResultText(g.header)) ==> Unbracketed(p)
  {
    var (num, white) := W.StartCounters(g.startFen);
    PartsOneLine(g.moves, num, white, true);
    ResultOneLine(ResultText(g.header));
  }

  lemma MoveLinesNice(g: Game)
    requires Readable(g)
    ensures forall l :: l in MoveLines(g) ==> Nice(l)
    ensures Join(MoveLines(g), " ") == Join(W.Parts(g.startFen, g.moves, ResultText(g.header)), " ")
    ensures Solid(Join(MoveLines(g), " "))
  {
    var parts := W.Parts(g.startFen, g.moves, ResultText(g.header));
    GamePartsOneLine(g);
    W.WrapKeepsParts(parts);
    JoinOneLine(parts);
    LinesOneLine(parts);
  }

  ghost predicate StartsLike(l: string, parts: seq<string>) {
    l != "" && exists p :: p in parts && p != "" && p[0] == l[0]
  }

  /** Every line starts like one of the parts. */
  lemma LinesOneLine(parts: seq<string>)
    requires parts != [] && forall p :: p in parts ==> OneLine(p)
    ensures forall l :: l in W.Wrapped(parts) ==> OneLine(l) && StartsLike(l, parts)
  {
    var lines := W.LinesFrom([parts[0]], parts[1..]);
    assert forall p :: p in parts[1..] ==> p in parts;
    assert parts[0] in parts && Join([parts[0]], " ") == parts[0];
    W.LinesGood([parts[0]], parts[1..], parts);
    forall l | l in W.Wrapped(parts) ensures OneLine(l) && StartsLike(l, parts) {
      var i :| 0 <= i < |lines| && l == Join(lines[i], " ");
      assert W.GoodLine(lines[i], parts);
      JoinOneLine(lines[i]);
      assert lines[i][0] in lines[i] && lines[i][0] in parts && lines[i][0][0] == l[0];
    }
  }

  /** Where no spelling starts with a bracket, no movetext line is a tag. */
  lemma UntaggedReadable(g: Game)
    requires PlainHeader(g.header) && ConsistentStart(g)
    requires forall mv :: mv in g.moves ==> OneLine(mv.san) && Unbracketed(mv.san)
    ensures Readable(g)
  {
    var parts := W.Parts(g.startFen, g.moves, ResultText(g.header));
    GamePartsOneLine(g);
    LinesOneLine(parts);
    forall l | l in MoveLines(g) ensures !IsTag(l) {
      assert OneLine(l) && StartsLike(l, parts);
      var p :| p in parts && p != "" && p[0] == l[0];
      NiceUntagged(l);
    }
  }

  lemma SafeReadable(g: Game)
    requires SafeSpelling(g.moves) && PlainHeader(g.header) && ConsistentStart(g)
    ensures Readable(g)
  {
    forall mv | mv in g.moves ensures OneLine(mv.san) && Unbracketed(mv.san) {
      assert W.Numbered(mv.san) && mv.san[0] != '[';
      assert forall i :: 0 <= i < |mv.san| ==> !M.EndsWord(mv.san[i]);
    }
    UntaggedReadable(g);
  }

  // ---------- the text splits into its lines ----------

  predicate TagShape(l: string) {
    IsTag(l) && l != "" && l[0] == '[' && l[|l| - 1] == ']' && Lacks(l, '\n')
  }

  /** Tag lines, an empty line at k, movetext lines. */
  ghost predicate GameShape(lines: seq<string>, k: nat) {
    && 1 <= k < |lines| - 1 && lines[k] == ""
    && (forall i :: 0 <= i < k ==> TagShape(lines[i]))
    && (forall i :: k < i < |lines| ==> Nice(lines[i]))
  }

  ghost predicate IsGameLines(lines: seq<string>) {
    exists k :: GameShape(lines, k)
  }

  /** The lines of a bundle: every game is followed by an empty line. */
  function BundleLines(all: seq<seq<string>>): seq<string> {
    if all == [] then [] else all[0] + [""] + BundleLines(all[1..])
  }

  lemma {:induction false} TrimOneNewline(s: string)
    requires s != "" && s[|s| - 1] != '\n'
    ensures TrimNewlines(s + "\n") == s
  {
    assert (s + "\n")[..|s|] == s;
  }

  lemma JoinEnd(lines: seq<string>, sep: string)
    requires lines != [] && lines[|lines| - 1] != ""
    ensures Join(lines, sep) != ""
    ensures Join(lines, sep)[|Join(lines, sep)| - 1] == lines[|lines| - 1][|lines[|lines| - 1]| - 1]
  {
    if |lines| > 1 {
      var init, last := lines[..|lines| - 1], lines[|lines| - 1];
      assert lines == init + [last];
      JoinAppend(init, [last], sep);
    }
  }

  lemma PartIsJoin(lines: seq<string>)
    requires IsGameLines(lines)
    ensures PartText(lines) == Join(lines, "\n")
    ensures Solid(Join(lines, "\n"))
  {
    var k :| GameShape(lines, k);
    assert Nice(lines[|lines| - 1]);
    UnlinesJoin(lines);
    JoinEnd(lines, "\n");
    TrimOneNewline(Join(lines, "\n"));
    assert Join(lines, "\n")[0] == '[';
  }

  lemma BundleOfCons(g: seq<string>, rest: seq<seq<string>>)
    ensures BundleOf([g] + rest)
      == if rest == [] then PartText(g) + "\n" else PartText(g) + "\n\n" + BundleOf(rest)
  {
    assert PartTexts([g] + rest) == [PartText(g)] + PartTexts(rest);
    if rest == [] {
      assert PartTexts([g] + rest) == [PartText(g)];
    } else {
      JoinCons(PartText(g), PartTexts(rest), "\n\n");
      var a, b := PartText(g), Join(PartTexts(rest), "\n\n");
      assert a + "\n\n" + b + "\n" == a + "\n\n" + (b + "\n");
    }
  }

  lemma JoinGap(g: seq<string>, rest: seq<string>)
    requires g != []
    ensures Join(g + [""], "\n") == Join(g, "\n") + "\n"
    ensures rest != [] ==> Join(g + [""] + rest, "\n") == Join(g, "\n") + "\n\n" + Join(rest, "\n")
  {
    JoinAppend(g, [""], "\n");
    assert Join([""], "\n") == "";
    if rest != [] {
      JoinAppend(g + [""], rest, "\n");
      var a, b := Join(g, "\n"), Join(rest, "\n");
      assert a + "\n" + "\n" + b == a + "\n\n" + b;
    }
  }

  lemma {:induction false} BundleIsJoin(all: seq<seq<string>>)
    requires all != [] && forall g :: g in all ==> IsGameLines(g)
    ensures BundleLines(all) != [] && BundleOf(all) == Join(BundleLines(all), "\n")
  {
    var g, rest := all[0], all[1..];
    assert IsGameLines(g) && g != [];
    assert all == [g] + rest;
    PartIsJoin(g);
    BundleOfCons(g, rest);
    JoinGap(g, BundleLines(rest));
    if rest == [] {
      assert BundleLines(all) == g + [""];
    } else {
      assert forall x :: x in rest ==> x in all;
      BundleIsJoin(rest);
    }
  }

  predicate LineEnds(l: string) {
    Lacks(l, '\n') && (l == "" || l[|l| - 1] != '\r')
  }

  lemma {:induction false} NoCarriageReturns(lines: seq<string>)
    requires forall l :: l in lines ==> LineEnds(l)
    ensures !Occurs(Join(lines, "\n"), "\r\n")
  {
    var text := Join(lines, "\n");
    if lines == [] {
    } else {
      assert LineEnds(lines[0]);
      assert forall l :: l in lines[1..] ==> l in lines;
      NoCarriageReturns(lines[1..]);
      forall k | 0 <= k <= |text| ensures !("\r\n" <= text[k..]) {
        NoCrLfAt(lines, k);
      }
    }
  }

  lemma NoCrLfAt(lines: seq<string>, k: nat)
    requires lines != [] && LineEnds(lines[0]) && k <= |Join(lines, "\n")|
    requires !Occurs(Join(lines[1..], "\n"), "\r\n")
    ensures !("\r\n" <= Join(lines, "\n")[k..])
  {
    var text, l, rest := Join(lines, "\n"), lines[0], Join(lines[1..], "\n");
    if |lines| == 1 {
      assert text == l;
      if k + 1 < |l| { assert text[k..][1] == l[k + 1]; }
    } else {
      assert text == l + "\n" + rest;
      if k > |l| {
        assert text[k..] == rest[k - |l| - 1..];
      } else if k + 1 < |text| {
        assert text[k..][0] == text[k] && text[k..][1] == text[k + 1];
        if k + 1 < |l| { assert text[k + 1] == l[k + 1]; }
        else if k + 1 == |l| { assert text[k] == l[k]; }
        else { assert text[k] == '\n'; }
      }
    }
  }

  lemma {:induction false} BundleLinesEnd(all: seq<seq<string>>)
    requires forall g :: g in all ==> IsGameLines(g)
    ensures forall l :: l in BundleLines(all) ==> LineEnds(l)
  {
    if all == [] {
    } else {
      assert IsGameLines(all[0]);
      var k :| GameShape(all[0], k);
      forall l | l in all[0] ensures LineEnds(l) {
        var i :| 0 <= i < |all[0]| && all[0][i] == l;
        if i > k { assert Nice(l); }
      }
      assert forall g :: g in all[1..] ==> g in all;
      BundleLinesEnd(all[1..]);
    }
  }

  lemma BundleSplits(all: seq<seq<string>>)
    requires all != [] && forall g :: g in all ==> IsGameLines(g)
    ensures TextLines(BundleOf(all)) == BundleLines(all)
  {
    BundleIsJoin(all);
    BundleLinesEnd(all);
    NoCarriageReturns(BundleLines(all));
    ReplaceAbsent(BundleOf(all), "\r\n", "\n");
    assert forall l :: l in BundleLines(all) ==> LineEnds(l);
    SplitJoin(BundleLines(all), '\n');
  }

  // ---------- the lines split into chunks ----------

  lemma {:induction false} ChunksTags(tags: seq<string>, rest: seq<string>, cur: seq<string>)
    requires forall l :: l in tags ==> IsTag(l)
    ensures Chunks(tags + rest, cur, false) == Chunks(rest, cur + tags, false)
    decreases |tags|
  {
    if tags == [] {
      assert tags + rest == rest && cur + tags == cur;
    } else {
      assert (tags + rest)[1..] == tags[1..] + rest;
      assert IsTag(tags[0]);
      ChunksTags(tags[1..], rest, cur + [tags[0]]);
      assert cur + [tags[0]] + tags[1..] == cur + tags;
    }
  }

  lemma {:induction false} ChunksBody(body: seq<string>, rest: seq<string>, cur: seq<string>, seen: bool)
    requires forall l :: l in body ==> l == "" || Nice(l)
    requires seen || (body != [] && Nice(body[0])) || (|body| > 1 && Nice(body[1]))
    ensures Chunks(body + rest, cur, seen) == Chunks(rest, cur + body, true)
    decreases |body|
  {
    if body == [] {
      assert body + rest == rest && cur + body == cur;
    } else {
      var l := body[0];
      assert (body + rest)[1..] == body[1..] + rest;
      assert l == "" || Nice(l);
      if l != "" { TrimSolid(l); } else { assert !IsTag("") && Trim("") == ""; }
      assert forall x :: x in body[1..] ==> x in body;
      ChunksBody(body[1..], rest, cur + [l], seen || l != "");
      assert cur + [l] + body[1..] == cur + body;
    }
  }

  lemma ShapeParts(g: seq<string>, k: nat)
    requires GameShape(g, k)
    ensures forall l :: l in g[..k] ==> IsTag(l)
    ensures forall l :: l in g[k..] + [""] ==> l == "" || Nice(l)
    ensures |g[k..] + [""]| > 1 && Nice((g[k..] + [""])[1])
    ensures g[..k] + (g[k..] + [""]) == g + [""]
  {
    forall l | l in g[k..] + [""] ensures l == "" || Nice(l) {
      if l != "" { var i :| k <= i < |g| && l == g[i]; }
    }
    assert (g[k..] + [""])[1] == g[k + 1];
  }

  /** A tag behind movetext opens the next chunk. */
  lemma TagFlushes(tag: string, more: seq<string>, rest: seq<string>, cur: seq<string>)
    requires IsTag(tag) && forall l :: l in more ==> IsTag(l)
    ensures Chunks([tag] + (more + rest), cur, true) == Flush(cur) + Chunks(rest, [tag] + more, false)
  {
    assert ([tag] + (more + rest))[1..] == more + rest;
    ChunksTags(more, rest, [tag]);
  }

  lemma ChunksOpen(tags: seq<string>, rest: seq<string>, cur: seq<string>, seen: bool)
    requires tags != [] && (forall l :: l in tags ==> IsTag(l)) && (seen || cur == [])
    ensures Chunks(tags + rest, cur, seen) == (if seen then Flush(cur) else []) + Chunks(rest, tags, false)
  {
    if seen {
      TagFlushes(tags[0], tags[1..], rest, cur);
      assert tags == [tags[0]] + tags[1..];
      ConcatThree([tags[0]], tags[1..], rest);
    } else {
      ChunksTags(tags, rest, []);
      assert [] + tags == tags;
    }
  }

  /** A game's lines, after what came before is flushed, open the next chunk. */
  lemma ChunksGame(g: seq<string>, rest: seq<string>, cur: seq<string>, seen: bool)
    requires IsGameLines(g) && (seen || cur == [])
    ensures Chunks(g + [""] + rest, cur, seen)
      == (if seen then Flush(cur) else []) + Chunks(rest, g + [""], true)
  {
    var k: nat :| GameShape(g, k);
    assert 1 <= k < |g| - 1;
    var tags, body := g[..k], g[k..] + [""];
    ShapeParts(g, k);
    assert g + [""] + rest == tags + (body + rest);
    ChunksOpen(tags, body + rest, cur, seen);
    ChunksBody(body, rest, tags, false);
  }

  function GameTexts(all: seq<seq<string>>): (texts: seq<string>)
    ensures |texts| == |all|
    ensures forall i :: 0 <= i < |all| ==> texts[i] == Join(all[i], "\n")
  {
    seq(|all|, i requires 0 <= i < |all| => Join(all[i], "\n"))
  }

  lemma FlushGame(g: seq<string>)
    requires IsGameLines(g)
    ensures Flush(g + [""]) == [Join(g, "\n")]
  {
    PartIsJoin(g);
    JoinAppend(g, [""], "\n");
    var text := Join(g, "\n");
    assert Join(g + [""], "\n") == "" + text + "\n";
    TrimPadded("", text, "\n");
  }

  lemma {:induction false} ChunksBundle(all: seq<seq<string>>, cur: seq<string>, seen: bool)
    requires forall g :: g in all ==> IsGameLines(g)
    requires seen || cur == []
    ensures Chunks(BundleLines(all), cur, seen) == (if seen then Flush(cur) else []) + GameTexts(all)
    decreases |all|
  {
    if all == [] {
      assert Flush([]) == [];
    } else {
      var g, rest := all[0], all[1..];
      assert IsGameLines(g) && BundleLines(all) == g + [""] + BundleLines(rest);
      ChunksGame(g, BundleLines(rest), cur, seen);
      assert forall x :: x in rest ==> x in all;
      ChunksBundle(rest, g + [""], true);
      FlushGame(g);
      GameTextsCons(g, rest);
      assert all == [g] + rest;
    }
  }

  lemma GameTextsCons(g: seq<string>, rest: seq<seq<string>>)
    ensures GameTexts([g] + rest) == [Join(g, "\n")] + GameTexts(rest)
  {
  }

  // ---------- the header comes back ----------

  lemma TagLineShape(key: string, val: string)
    requires IsKey(key) && Lacks(val, '\n')
    ensures TagShape(TagLine(key, val))
  {
    TagLineMatches(key, val);
    EscapeLacks(val);
    assert Lacks(key, '\n');
    var l := "[" + key + " \"" + Escape(val) + "\"]";
    assert Lacks("[" + key + " \"", '\n') && Lacks("\"]", '\n');
    assert l[|l| - 1] == ']';
  }

  lemma {:induction false} EscapeEachLacks(s: string)
    requires Lacks(s, '\n')
    ensures Lacks(EscapeEach(s), '\n')
  {
    if s == "" {
    } else {
      EscapeEachLacks(s[1..]);
    }
  }

  lemma EscapeLacks(s: string)
    requires Lacks(s, '\n')
    ensures Lacks(Escape(s), '\n')
  {
    EscapeIsEach(s);
    EscapeEachLacks(s);
  }

  lemma ReadTagLine(acc: Header, key: string, val: string, rest: seq<string>)
    requires IsKey(key) && Lacks(val, '\n')
    ensures ReadTags(acc, [TagLine(key, val)] + rest) == ReadTags(ApplyTag(acc, key, val), rest)
  {
    TagLineMatches(key, val);
    UnescapeEscape(val);
    assert ([TagLine(key, val)] + rest)[1..] == rest;
  }

  lemma RosterKeys()
    ensures forall key :: key in ROSTER ==> IsKey(key)
    ensures IsKey("Board") && IsKey("FEN") && IsKey("SetUp")
    ensures "Board" !in ROSTER && "FEN" !in ROSTER && "SetUp" !in ROSTER
  {
    assert IsKey("Event") && IsKey("Site") && IsKey("Date") && IsKey("Round");
    assert IsKey("White") && IsKey("Black") && IsKey("Result");
    assert "Board"[0] == 'B' && "Board"[1] == 'o' && "Black"[1] == 'l';
    assert "FEN"[0] == 'F' && "SetUp"[1] == 'e' && "Site"[1] == 'i';
  }

  lemma RosterPlain(h: Header, key: string)
    requires PlainHeader(h)
    ensures Lacks(RosterValue(h, key), '\n')
  {
  }

  function ApplyRoster(acc: Header, h: Header, keys: seq<string>): Header
    decreases |keys|
  {
    if keys == [] then acc else ApplyRoster(ApplyTag(acc, keys[0], RosterValue(h, keys[0])), h, keys[1..])
  }

  lemma RosterLinesCons(h: Header, keys: seq<string>, rest: seq<string>)
    requires keys != []
    ensures RosterLines(h, keys) + rest
      == [TagLine(keys[0], RosterValue(h, keys[0]))] + (RosterLines(h, keys[1..]) + rest)
  {
    assert RosterLines(h, keys) == [TagLine(keys[0], RosterValue(h, keys[0]))] + RosterLines(h, keys[1..]);
  }

  lemma {:induction false} ReadRoster(acc: Header, h: Header, keys: seq<string>, rest: seq<string>)
    requires PlainHeader(h) && forall key :: key in keys ==> IsKey(key)
    ensures ReadTags(acc, RosterLines(h, keys) + rest) == ReadTags(ApplyRoster(acc, h, keys), rest)
    decreases |keys|
  {
    if keys == [] {
      assert RosterLines(h, keys) + rest == rest;
    } else {
      var key, val := keys[0], RosterValue(h, keys[0]);
      assert key in keys && forall k :: k in keys[1..] ==> k in keys;
      RosterPlain(h, key);
      RosterLinesCons(h, keys, rest);
      ReadTagLine(acc, key, val, RosterLines(h, keys[1..]) + rest);
      ReadRoster(ApplyTag(acc, key, val), h, keys[1..], rest);
    }
  }

  function RosterHeader(h: Header): Header {
    Header(RosterValue(h, "Event"), RosterValue(h, "Site"), RosterValue(h, "Date"), RosterValue(h, "Round"),
           RosterValue(h, "White"), RosterValue(h, "Black"), "", NormalizeResult(RosterValue(h, "Result")), map[])
  }

  /** The roster fields that are read back, one by one. */
  lemma RosterDefaults(h: Header)
    ensures var read := RosterHeader(h);
      && read.event == OrElse(h.event, "?") && read.site == OrElse(h.site, "?")
      && read.date == OrElse(h.date, "????.??.??") && read.round == OrElse(h.round, "?")
      && read.white == OrElse(h.white, "?") && read.black == OrElse(h.black, "?")
    ensures ResultText(h) == OrElse(h.result, "*")
  {
  }

  lemma RosterApplied(h: Header)
    ensures ApplyRoster(NoTags(), h, ROSTER) == RosterHeader(h)
  {
    var k1 := ROSTER[1..];
    var k2 := k1[1..];
    var k3 := k2[1..];
    var k4 := k3[1..];
    var k5 := k4[1..];
    var k6 := k5[1..];
    assert k6 == ["Result"] && k6[1..] == [];
    var a1 := ApplyTag(NoTags(), "Event", RosterValue(h, "Event"));
    var a2 := ApplyTag(a1, "Site", RosterValue(h, "Site"));
    var a3 := ApplyTag(a2, "Date", RosterValue(h, "Date"));
    var a4 := ApplyTag(a3, "Round", RosterValue(h, "Round"));
    var a5 := ApplyTag(a4, "White", RosterValue(h, "White"));
    var a6 := ApplyTag(a5, "Black", RosterValue(h, "Black"));
    var a7 := ApplyTag(a6, "Result", RosterValue(h, "Result"));
    assert a7 == RosterHeader(h);
    assert ApplyRoster(NoTags(), h, ROSTER) == ApplyRoster(a1, h, k1);
    assert ApplyRoster(a1, h, k1) == ApplyRoster(a2, h, k2);
    assert ApplyRoster(a2, h, k2) == ApplyRoster(a3, h, k3);
    assert ApplyRoster(a3, h, k3) == ApplyRoster(a4, h, k4);
    assert ApplyRoster(a4, h, k4) == ApplyRoster(a5, h, k5);
    assert ApplyRoster(a5, h, k5) == ApplyRoster(a6, h, k6);
    assert ApplyRoster(a6, h, k6) == ApplyRoster(a7, h, []);
  }

  function ApplyExtra(acc: Header, keys: seq<string>, tags: map<string, string>): Header
    requires forall k :: k in keys ==> k in tags
    decreases |keys|
  {
    if keys == [] then acc
    else
      assert forall k :: k in keys[1..] ==> k in keys;
      ApplyExtra(ApplyTag(acc, keys[0], tags[keys[0]]), keys[1..], tags)
  }

  ghost predicate PlainTags(keys: seq<string>, tags: map<string, string>) {
    forall k :: k in keys ==> k in tags && IsKey(k) && k !in ROSTER && Lacks(tags[k], '\n')
  }

  lemma {:induction false} ReadExtra(acc: Header, keys: seq<string>, tags: map<string, string>, rest: seq<string>)
    requires PlainTags(keys, tags)
    ensures ReadTags(acc, KeyLines(keys, tags) + rest) == ReadTags(ApplyExtra(acc, keys, tags), rest)
    decreases |keys|
  {
    if keys == [] {
      assert KeyLines(keys, tags) + rest == rest;
    } else {
      var key, val := keys[0], tags[keys[0]];
      assert forall k :: k in keys[1..] ==> k in keys;
      assert KeyLines(keys, tags) + rest == [TagLine(key, val)] + (KeyLines(keys[1..], tags) + rest);
      ReadTagLine(acc, key, val, KeyLines(keys[1..], tags) + rest);
      ReadExtra(ApplyTag(acc, key, val), keys[1..], tags, rest);
    }
  }

  /** Reading extra tags sets the board and the extra map and nothing else. */
  lemma {:induction false} ExtraApplied(acc: Header, keys: seq<string>, tags: map<string, string>)
    requires PlainTags(keys, tags)
    ensures var h := ApplyExtra(acc, keys, tags);
      && h == acc.(board := h.board, extra := h.extra)
      && h.board == (if "Board" in keys then tags["Board"] else acc.board)
      && (forall k :: k in h.extra <==> k in acc.extra || (k in keys && k != "Board"))
      && (forall k :: k in h.extra ==> h.extra[k] == if k in keys && k != "Board" then tags[k] else acc.extra[k])
    decreases |keys|
  {
    if keys == [] {
    } else {
      var key, val := keys[0], tags[keys[0]];
      assert forall k :: k in keys <==> k == key || k in keys[1..];
      assert key in keys && key !in ROSTER;
      NotRoster(acc, key, val);
      ExtraApplied(ApplyTag(acc, key, val), keys[1..], tags);
    }
  }

  lemma NotRoster(acc: Header, key: string, val: string)
    requires key !in ROSTER
    ensures ApplyTag(acc, key, val)
      == if key == "Board" then acc.(board := val) else acc.(extra := acc.extra[key := val])
  {
    assert ROSTER[0] == "Event" && ROSTER[1] == "Site" && ROSTER[2] == "Date" && ROSTER[3] == "Round";
    assert ROSTER[4] == "White" && ROSTER[5] == "Black" && ROSTER[6] == "Result";
  }

  lemma ExtraTagsPlain(g: Game)
    requires PlainHeader(g.header) && ConsistentStart(g)
    ensures forall k :: k in ExtraTags(g) ==> IsKey(k) && k !in ROSTER && Lacks(ExtraTags(g)[k], '\n')
    ensures forall k :: k in ExtraTags(g) && k != "Board" <==> k in WithStart(g.header.extra, g.startFen)
    ensures var e := WithStart(g.header.extra, g.startFen);
      forall k :: k in e ==> ExtraTags(g)[k] == e[k]
    ensures "Board" in ExtraTags(g) <==> g.header.board != ""
    ensures g.header.board != "" ==> ExtraTags(g)["Board"] == g.header.board
  {
    RosterKeys();
    assert "Board"[0] == 'B' && "FEN"[0] == 'F' && "SetUp"[0] == 'S';
    assert Lacks("1", '\n');
  }

  lemma {:induction false} ReadOthers(acc: Header, lines: seq<string>)
    requires forall l :: l in lines ==> !IsTag(l)
    ensures ReadTags(acc, lines) == acc && OtherLines(lines) == lines
    decreases |lines|
  {
    if lines == [] {
    } else {
      assert !IsTag(lines[0]) && lines == [lines[0]] + lines[1..];
      assert forall l :: l in lines[1..] ==> l in lines;
      ReadOthers(acc, lines[1..]);
    }
  }

  lemma {:induction false} OthersAfterTags(tags: seq<string>, rest: seq<string>)
    requires forall l :: l in tags ==> IsTag(l)
    ensures OtherLines(tags + rest) == OtherLines(rest)
  {
    if tags == [] {
      assert tags + rest == rest;
    } else {
      assert IsTag(tags[0]) && (tags + rest)[1..] == tags[1..] + rest;
      assert forall l :: l in tags[1..] ==> l in tags;
      OthersAfterTags(tags[1..], rest);
    }
  }

  lemma RosterLinesShape(h: Header)
    requires PlainHeader(h)
    ensures forall l :: l in RosterLines(h, ROSTER) ==> TagShape(l)
  {
    RosterKeys();
    forall l | l in RosterLines(h, ROSTER) ensures TagShape(l) {
      var i :| 0 <= i < |ROSTER| && l == RosterLines(h, ROSTER)[i];
      var key := ROSTER[i];
      assert key in ROSTER;
      RosterPlain(h, key);
      TagLineShape(key, RosterValue(h, key));
    }
  }

  lemma KeyLinesShape(keys: seq<string>, tags: map<string, string>)
    requires PlainTags(keys, tags)
    ensures forall l :: l in KeyLines(keys, tags) ==> TagShape(l)
  {
    forall l | l in KeyLines(keys, tags) ensures TagShape(l) {
      var i :| 0 <= i < |keys| && l == KeyLines(keys, tags)[i];
      assert keys[i] in keys;
      TagLineShape(keys[i], tags[keys[i]]);
    }
  }

  lemma TagKeysPlain(g: Game)
    requires PlainHeader(g.header) && ConsistentStart(g)
    ensures PlainTags(SortedKeys(ExtraTags(g).Keys), ExtraTags(g))
    ensures "Board" in SortedKeys(ExtraTags(g).Keys) <==> "Board" in ExtraTags(g)
    ensures forall k :: k in SortedKeys(ExtraTags(g).Keys) <==> k in ExtraTags(g)
  {
    SortedKeysElements(ExtraTags(g).Keys);
    ExtraTagsPlain(g);
  }

  lemma TagLinesShape(g: Game)
    requires PlainHeader(g.header) && ConsistentStart(g)
    ensures forall l :: l in TagLines(g) ==> TagShape(l)
  {
    TagKeysPlain(g);
    RosterLinesShape(g.header);
    KeyLinesShape(SortedKeys(ExtraTags(g).Keys), ExtraTags(g));
  }

  lemma TagsRead(g: Game, rest: seq<string>)
    requires PlainHeader(g.header) && ConsistentStart(g)
    requires forall l :: l in rest ==> !IsTag(l)
    ensures PlainTags(SortedKeys(ExtraTags(g).Keys), ExtraTags(g))
    ensures ReadTags(NoTags(), TagLines(g) + rest)
      == ApplyExtra(RosterHeader(g.header), SortedKeys(ExtraTags(g).Keys), ExtraTags(g))
  {
    var h, tags := g.header, ExtraTags(g);
    TagKeysPlain(g);
    var keys := SortedKeys(tags.Keys);
    RosterKeys();
    var roster, extra := RosterLines(h, ROSTER), KeyLines(keys, tags);
    assert TagLines(g) + rest == roster + (extra + rest);
    ReadRoster(NoTags(), h, ROSTER, extra + rest);
    RosterApplied(h);
    ReadExtra(RosterHeader(h), keys, tags, rest);
    ReadOthers(ApplyExtra(RosterHeader(h), keys, tags), rest);
  }

  /** The header read from a written game. */
  lemma HeaderRead(g: Game, rest: seq<string>)
    requires PlainHeader(g.header) && ConsistentStart(g)
    requires forall l :: l in rest ==> !IsTag(l)
    ensures ReadTags(NoTags(), TagLines(g) + rest) == NormalHeader(g)
  {
    TagsRead(g, rest);
    HeaderApplied(g);
  }

  lemma HeaderApplied(g: Game)
    requires PlainHeader(g.header) && ConsistentStart(g)
    requires PlainTags(SortedKeys(ExtraTags(g).Keys), ExtraTags(g))
    ensures ApplyExtra(RosterHeader(g.header), SortedKeys(ExtraTags(g).Keys), ExtraTags(g)) == NormalHeader(g)
  {
    TagKeysPlain(g);
    ExtraTagsPlain(g);
    RosterDefaults(g.header);
    ResultKept(g.header);
    ExtraMerged(g.header, SortedKeys(ExtraTags(g).Keys), ExtraTags(g), WithStart(g.header.extra, g.startFen));
  }

  lemma ResultKept(h: Header)
    requires PlainHeader(h)
    ensures RosterHeader(h).result == ResultText(h)
  {
    ResultSpellings(ResultText(h));
  }

  lemma ExtraMerged(h: Header, keys: seq<string>, tags: map<string, string>, e: map<string, string>)
    requires PlainTags(keys, tags) && forall k :: k in keys <==> k in tags
    requires forall k :: k in tags && k != "Board" <==> k in e
    requires forall k :: k in e ==> tags[k] == e[k]
    requires "Board" in tags <==> h.board != ""
    requires h.board != "" ==> tags["Board"] == h.board
    ensures ApplyExtra(RosterHeader(h), keys, tags)
      == RosterHeader(h).(board := h.board, extra := e)
  {
    ExtraApplied(RosterHeader(h), keys, tags);
    var read := ApplyExtra(RosterHeader(h), keys, tags);
    assert read.extra == e;
    assert read.board == h.board;
  }

  lemma StartRead(g: Game)
    requires ConsistentStart(g)
    ensures StartFen(NormalHeader(g)) == Start(g)
  {
    if Start(g) != STARTING_FEN {
      assert g.startFen != "" && g.startFen != STARTING_FEN;
      TrimSolid(g.startFen);
      assert "FEN" != "SetUp" by { assert "FEN"[0] == 'F' && "SetUp"[0] == 'S'; }
      var e := if "FEN" in g.header.extra then g.header.extra else g.header.extra["FEN" := g.startFen];
      assert Trim(e["FEN"]) == Start(g);
      assert NormalHeader(g).extra["FEN"] == e["FEN"];
    }
  }

  // ---------- the moves come back ----------

  lemma ClockComesBack(mv: M.Move)
    requires mv.clock.Some? ==> mv.clock.value <= MAX_INT64
    ensures Clock.ClockFromComment(W.MoveToken(mv).comment) == NormalClock(mv.clock)
  {
    if mv.clock.Some? { Clock.ClockRoundTrip(mv.clock.value); }
  }

  lemma TokenReplayed(r: Rules, p: Position, mv: M.Move, rest: seq<M.Token>)
    requires mv.clock.Some? ==> mv.clock.value <= MAX_INT64
    ensures Resolve(r, p, mv.san).Err? ==> PlayTokens(r, p, [W.MoveToken(mv)] + rest) == []
    ensures Resolve(r, p, mv.san).Ok? ==>
      var q := r.update(p, Resolve(r, p, mv.san).value.0);
      PlayTokens(r, p, [W.MoveToken(mv)] + rest)
      == [M.Move(Resolve(r, p, mv.san).value.1, r.write(p), r.write(q), NormalClock(mv.clock))]
         + PlayTokens(r, q, rest)
  {
    ClockComesBack(mv);
    var toks := [W.MoveToken(mv)] + rest;
    assert toks[0].san == mv.san && toks[1..] == rest;
  }

  /** Playing the scanned tokens replays the moves. */
  lemma {:induction false} TokensReplay(r: Rules, p: Position, moves: seq<M.Move>)
    requires forall mv :: mv in moves && mv.clock.Some? ==> mv.clock.value <= MAX_INT64
    ensures PlayTokens(r, p, W.MoveTokens(moves)) == Replayed(r, p, moves)
    decreases |moves|
  {
    if moves == [] {
    } else {
      var rest := moves[1..];
      assert moves[0] in moves && forall x :: x in rest ==> x in moves;
      MapCons(W.MoveToken, moves);
      TokenReplayed(r, p, moves[0], W.MoveTokens(rest));
      if Resolve(r, p, moves[0].san).Ok? {
        TokensReplay(r, r.update(p, Resolve(r, p, moves[0].san).value.0), rest);
      }
    }
  }

  /** Replaying canonical moves changes nothing but negative clocks. */
  lemma {:induction false} CanonicalReplays(r: Rules, p: Position, moves: seq<M.Move>)
    requires Lawful(r) && CanonicalLine(r, p, moves)
    ensures Replayed(r, p, moves) == NormalMoves(moves)
    decreases |moves|
  {
    if moves == [] {
      assert NormalMoves(moves) == [];
    } else {
      var mv, rest := moves[0], moves[1..];
      var m :| IsPlayed(r, p, m, mv) && CanonicalLine(r, r.update(p, m), rest);
      ResolveEncoded(r, p, m);
      CanonicalReplays(r, r.update(p, m), rest);
      MapCons(NormalMove, moves);
    }
  }

  /** Canonical games are writable, and are read back in normal form. */
  lemma CanonicalReadsBack(r: Rules, g: Game)
    requires Lawful(r) && Canonical(r, g)
    ensures Writable(g) && ReadBack(r, g) == Normal(g)
  {
    var first := ReadFen(r, Start(g));
    if first.Some? {
      LineSafe(r, first.value, g.moves);
      W.SafeStripped(g.moves);
      CanonicalReplays(r, first.value, g.moves);
    } else {
      assert NormalMoves(g.moves) == [];
    }
  }

  /** A replayed line is canonical: reading once settles the spelling. */
  lemma {:induction false} ReplayedIsCanonical(r: Rules, p: Position, moves: seq<M.Move>)
    requires Lawful(r)
    ensures CanonicalLine(r, p, Replayed(r, p, moves))
    decreases |moves|
  {
    if moves == [] {
    } else if Resolve(r, p, moves[0].san).Ok? {
      ResolvedIsLegal(r, p, moves[0].san);
      var m := Resolve(r, p, moves[0].san).value.0;
      var played := Replayed(r, p, moves);
      ReplayedIsCanonical(r, r.update(p, m), moves[1..]);
      assert IsPlayed(r, p, m, played[0]) && played[1..] == Replayed(r, r.update(p, m), moves[1..]);
    }
  }

  // ---------- one game ----------

  lemma GameLinesShape(g: Game)
    requires Readable(g)
    ensures IsGameLines(GameLines(g))
  {
    TagLinesShape(g);
    MoveLinesNice(g);
    LinesShape(TagLines(g), MoveLines(g));
    assert |TagLines(g)| >= |ROSTER|;
  }

  lemma LinesShape(tags: seq<string>, moves: seq<string>)
    requires tags != [] && (forall l :: l in tags ==> TagShape(l))
    requires moves != [] && (forall l :: l in moves ==> Nice(l))
    ensures IsGameLines(tags + [""] + moves)
  {
    var g := tags + [""] + moves;
    forall i | 0 <= i < |tags| ensures TagShape(g[i]) { assert g[i] == tags[i]; }
    forall i | |tags| < i < |g| ensures Nice(g[i]) { assert g[i] == moves[i - |tags| - 1]; }
    assert GameShape(g, |tags|);
  }

  lemma MovetextRead(g: Game)
    requires Readable(g)
    ensures forall l :: l in [""] + MoveLines(g) ==> !IsTag(l)
    ensures Trim(Join(OtherLines(TagLines(g) + ([""] + MoveLines(g))), " "))
      == Join(W.Parts(g.startFen, g.moves, ResultText(g.header)), " ")
  {
    MoveLinesNice(g);
    TagLinesShape(g);
    OthersAfterTags(TagLines(g), [""] + MoveLines(g));
    ReadOthers(NoTags(), [""] + MoveLines(g));
    JoinedLines(MoveLines(g));
  }

  lemma JoinedLines(moves: seq<string>)
    requires moves != [] && Solid(Join(moves, " "))
    ensures Trim(Join([""] + moves, " ")) == Join(moves, " ")
  {
    JoinCons("", moves, " ");
    var text := Join(moves, " ");
    TrimPadded(" ", text, "");
    assert "" + " " + text == " " + text + "";
  }

  /** A written game is read back as its movetext is scanned. */
  lemma GameScans(r: Rules, g: Game)
    requires Readable(g)
    ensures ParsedChunk(r, Join(GameLines(g), "\n")) == Some(ScannedGame(r, g))
  {
    GameLinesShape(g);
    SplitGameText(GameLines(g));
    LinesRead(g);
    FinishRead(r, g);
  }

  /** The header and the movetext that are found in the lines of a written game. */
  lemma LinesRead(g: Game)
    requires Readable(g)
    ensures ReadTags(NoTags(), GameLines(g)) == NormalHeader(g)
    ensures Trim(Join(OtherLines(GameLines(g)), " "))
      == Join(W.Parts(g.startFen, g.moves, ResultText(g.header)), " ")
  {
    var rest := [""] + MoveLines(g);
    assert GameLines(g) == TagLines(g) + rest;
    MovetextRead(g);
    HeaderRead(g, rest);
  }

  lemma FinishRead(r: Rules, g: Game)
    requires PlainHeader(g.header) && ConsistentStart(g)
    ensures GameOf(r, NormalHeader(g), Join(W.Parts(g.startFen, g.moves, ResultText(g.header)), " "))
      == Some(ScannedGame(r, g))
  {
    StartRead(g);
    assert NormalHeader(g).event != "" && NormalHeader(g).result == ResultText(g.header);
  }

  /** One written game of safe spelling is read back move by move. */
  lemma GameReadsBack(r: Rules, g: Game)
    requires Writable(g)
    ensures Readable(g) && ScannedGame(r, g) == ReadBack(r, g)
  {
    SafeReadable(g);
    NumbersRead(g);
    assert ResultText(g.header) != "" && NormalHeader(g).result == ResultText(g.header);
    var first := ReadFen(r, Start(g));
    if first.Some? {
      StrippedClocks(g.moves);
      TokensReplay(r, first.value, W.StrippedMoves(g.moves));
      assert ReadFen(r, Start(g)) == ReadFen(r, StartOf(Start(g)));
    }
  }

  lemma NumbersRead(g: Game)
    requires Writable(g)
    ensures Scanned(g) == M.Scan(W.MoveTokens(W.StrippedMoves(g.moves)), ResultText(g.header))
  {
    forall mv | mv in g.moves ensures W.Numbered(mv.san) {}
    W.MovetextRoundTrip(g.startFen, g.moves, ResultText(g.header));
  }

  lemma SplitGameText(lines: seq<string>)
    requires IsGameLines(lines)
    ensures Split(Join(lines, "\n"), '\n') == lines
  {
    var k :| GameShape(lines, k);
    forall l | l in lines ensures Lacks(l, '\n') {
      var i :| 0 <= i < |lines| && l == lines[i];
      if i < k { assert TagShape(lines[i]); }
      if i > k { assert Nice(lines[i]); }
    }
    SplitJoin(lines, '\n');
  }

  lemma StrippedClocks(moves: seq<M.Move>)
    requires forall mv :: mv in moves && mv.clock.Some? ==> mv.clock.value <= MAX_INT64
    ensures forall mv :: mv in W.StrippedMoves(moves) && mv.clock.Some? ==> mv.clock.value <= MAX_INT64
  {
    forall mv | mv in W.StrippedMoves(moves) && mv.clock.Some? ensures mv.clock.value <= MAX_INT64 {
      var i :| 0 <= i < |moves| && mv == W.Stripped(moves[i]);
      assert moves[i] in moves;
    }
  }

  // ---------- bundles ----------

  function ReadGames(r: Rules, games: seq<Game>): (read: seq<Game>)
    ensures |read| == |games|
    ensures forall i :: 0 <= i < |games| ==> read[i] == ReadBack(r, games[i])
  {
    seq(|games|, i requires 0 <= i < |games| => ReadBack(r, games[i]))
  }

  function NormalGames(games: seq<Game>): (normal: seq<Game>)
    ensures |normal| == |games|
    ensures forall i :: 0 <= i < |games| ==> normal[i] == Normal(games[i])
  {
    seq(|games|, i requires 0 <= i < |games| => Normal(games[i]))
  }

  lemma {:induction false} AllPresent(found: seq<Option<Game>>, games: seq<Game>)
    requires |found| == |games| && forall i :: 0 <= i < |found| ==> found[i] == Some(games[i])
    ensures Present(found) == games
    decreases |found|
  {
    if found == [] {
    } else {
      AllPresent(found[1..], games[1..]);
      assert games == [games[0]] + games[1..];
    }
  }

  function ScannedGames(r: Rules, games: seq<Game>): (read: seq<Game>)
    ensures |read| == |games|
    ensures forall i :: 0 <= i < |games| ==> read[i] == ScannedGame(r, games[i])
  {
    seq(|games|, i requires 0 <= i < |games| => ScannedGame(r, games[i]))
  }

  /** Parsing a written bundle reads every game, in order, as its movetext is scanned. */
  lemma BundleScans(r: Rules, games: seq<Game>)
    requires forall g :: g in games ==> Readable(g)
    ensures Parsed(r, BundleText(games)) == ScannedGames(r, games)
  {
    var all := LinesOfGames(games);
    forall l | l in all ensures IsGameLines(l) {
      var i :| 0 <= i < |games| && l == all[i];
      assert games[i] in games;
      GameLinesShape(games[i]);
    }
    BundleChunks(all);
    var found := ParsedChunks(r, GameTexts(all));
    forall i | 0 <= i < |games| ensures found[i] == Some(ScannedGames(r, games)[i]) {
      assert games[i] in games;
      GameScans(r, games[i]);
      assert GameTexts(all)[i] == Join(all[i], "\n");
    }
    AllPresent(found, ScannedGames(r, games));
  }

  /** Parsing a written bundle reads every game back, in order. */
  lemma BundleReadsBack(r: Rules, games: seq<Game>)
    requires forall g :: g in games ==> Writable(g)
    ensures Parsed(r, BundleText(games)) == ReadGames(r, games)
  {
    forall g | g in games ensures Readable(g) { GameReadsBack(r, g); }
    BundleScans(r, games);
    forall i | 0 <= i < |games| ensures ScannedGames(r, games)[i] == ReadGames(r, games)[i] {
      GameReadsBack(r, games[i]);
    }
  }

  /** Canonical games come back exactly, in order and in normal form. */
  lemma BundleComesBack(r: Rules, games: seq<Game>)
    requires Lawful(r) && forall g :: g in games ==> Canonical(r, g)
    ensures Parsed(r, BundleText(games)) == NormalGames(games)
  {
    forall g | g in games ensures Writable(g) { CanonicalReadsBack(r, g); }
    BundleReadsBack(r, games);
    CanonicalGamesReadBack(r, games);
  }

  lemma CanonicalGamesReadBack(r: Rules, games: seq<Game>)
    requires Lawful(r) && forall g :: g in games ==> Canonical(r, g)
    ensures ReadGames(r, games) == NormalGames(games)
  {
    forall i | 0 <= i < |games| ensures ReadGames(r, games)[i] == NormalGames(games)[i] {
      assert games[i] in games;
      CanonicalReadsBack(r, games[i]);
    }
  }

  /** A single written game is a bundle of one. */
  lemma GameIsBundle(g: Game)
    requires Readable(g)
    ensures GameText(g) == BundleText([g])
  {
    GameLinesShape(g);
    PartIsJoin(GameLines(g));
    UnlinesJoin(GameLines(g));
    assert LinesOfGames([g]) == [GameLines(g)];
    BundleOfCons(GameLines(g), []);
    assert [GameLines(g)] + [] == [GameLines(g)];
  }

  lemma BundleChunks(all: seq<seq<string>>)
    requires forall g :: g in all ==> IsGameLines(g)
    ensures Chunks(TextLines(BundleOf(all)), [], false) == GameTexts(all)
  {
    if all == [] {
      assert PartTexts(all) == [] && BundleOf(all) == "\n";
      assert "\n"[1..] == "";
      assert TextLines("\n") == ["", ""];
      assert ["", ""][1..] == [""] && [] + [""] == [""] && [""][1..] == [] && [""] + [""] == ["", ""];
      assert !IsTag("");
      assert Chunks(["", ""], [], false) == Chunks([""], [""], false) == Chunks([], ["", ""], false);
      assert Join(["", ""], "\n") == "\n" && Trim("\n") == "";
      assert GameTexts(all) == [];
    } else {
      BundleSplits(all);
      ChunksBundle(all, [], false);
      assert [] + GameTexts(all) == GameTexts(all);
    }
  }

  // ---------- printing again ----------

  lemma StandardCounters()
    ensures W.StartCounters(STARTING_FEN) == (1, true)
  {
    assert NoSpace("rnbqkbnr/pppppppp/8/8/") && NoSpace("8/8/PPPPPPPP/RNBQKBNR");
    assert NoSpace(START_BOARD);
    SixFields(START_BOARD, "w", "KQkq", "-", "0", "1");
    assert "1"[..0] == "" && Value("") == 0 && Value("1") == 1;
    assert W.Atoi("1") == Some(1);
    assert "w"[0] != "b"[0];
  }

  lemma {:induction false} NormalParts(moves: seq<M.Move>, num: int, white: bool, first: bool)
    ensures W.MoveParts(NormalMoves(moves), num, white, first) == W.MoveParts(moves, num, white, first)
    decreases |moves|
  {
    if moves == [] {
    } else {
      MapCons(NormalMove, moves);
      assert NormalMoves(moves)[1..] == NormalMoves(moves[1..]);
      NormalParts(moves[1..], W.NextNumber(num, white), !white, false);
    }
  }

  lemma NormalRoster(g: Game, key: string)
    requires key in ROSTER
    ensures RosterValue(NormalHeader(g), key) == RosterValue(g.header, key)
  {
    NotRosterKey(g, key);
  }

  lemma NotRosterKey(g: Game, key: string)
    requires key in ROSTER
    ensures key in ["Event", "Site", "Date", "Round", "White", "Black"]
      || RosterField(g.header, key) == ResultText(g.header)
  {
  }

  lemma NormalExtra(g: Game)
    requires PlainHeader(g.header)
    ensures ExtraTags(Normal(g)) == ExtraTags(g)
  {
    assert "Board"[0] == 'B' && "FEN"[0] == 'F' && "SetUp"[0] == 'S';
  }

  lemma NormalLines(g: Game)
    requires PlainHeader(g.header)
    ensures GameLines(Normal(g)) == GameLines(g)
  {
    forall i | 0 <= i < |ROSTER|
      ensures RosterLines(NormalHeader(g), ROSTER)[i] == RosterLines(g.header, ROSTER)[i]
    {
      assert ROSTER[i] in ROSTER;
      NormalRoster(g, ROSTER[i]);
    }
    assert RosterLines(NormalHeader(g), ROSTER) == RosterLines(g.header, ROSTER);
    NormalExtra(g);
    assert TagLines(Normal(g)) == TagLines(g);
    NormalMoveLines(g);
  }

  lemma NormalMoveLines(g: Game)
    ensures MoveLines(Normal(g)) == MoveLines(g)
  {
    if g.startFen == "" { StandardCounters(); }
    var (num, white) := W.StartCounters(g.startFen);
    NormalParts(g.moves, num, white, true);
  }

  /** Printing the parsed games gives the same text again. */
  lemma PrintsAgain(r: Rules, games: seq<Game>)
    requires Lawful(r) && forall g :: g in games ==> Canonical(r, g)
    ensures BundleText(Parsed(r, BundleText(games))) == BundleText(games)
  {
    BundleComesBack(r, games);
    forall i | 0 <= i < |games|
      ensures LinesOfGames(NormalGames(games))[i] == LinesOfGames(games)[i]
    {
      assert games[i] in games;
      NormalLines(games[i]);
    }
    assert LinesOfGames(NormalGames(games)) == LinesOfGames(games);
  }

  // ---------- canonical games exist ----------

  /** A canonical game of the toy rules, with a clock and a start position of its own. */
  lemma ToyGame() returns (g: Game)
    ensures Canonical(Toy(), g) && |g.moves| == 1
  {
    var start := ToyPrint(0);
    var mv := M.Move(Encode(Toy(), 0, 0), start, ToyPrint(1), Some(61));
    g := Game(NoTags(), [mv], start);
    ToyStart(0);
    ToyPrinted(0);
    ToyLine(mv);
    ToyFits(g);
  }

  lemma ToyFits(g: Game)
    requires g.header == NoTags() && W.StartCounters(g.startFen) == (1, true)
    requires |g.moves| == 1 && g.moves[0].clock == Some(61)
    requires g.startFen != STARTING_FEN && Solid(g.startFen) && Lacks(g.startFen, '\n')
    ensures FitsInt(g) && PlainHeader(g.header) && ConsistentStart(g)
  {
  }

  lemma ToyStart(p: Position)
    requires p == 0
    ensures ToyParse(ToyPrint(p)) == Some(p) && W.StartCounters(ToyPrint(p)) == (1, true)
  {
    ToyReadsBack(p);
    ToyCounters(p);
  }

  lemma ToyCounters(p: Position)
    requires p / 2 < MAX_INT64
    ensures W.StartCounters(ToyPrint(p)) == (p / 2 + 1, p % 2 == 0)
  {
    var colour := if p % 2 == 0 then "w" else "b";
    assert NoSpace("4k3/8/8/8/") && NoSpace("8/8/8/4K3");
    assert NoSpace(TOY_BOARD) && "w"[0] != "b"[0];
    W.CountersRead(TOY_BOARD, colour, "-", "-", "0", p / 2 + 1);
    assert ToyPrint(p) == W.NumberedFen(TOY_BOARD, colour, "-", "-", "0", p / 2 + 1);
  }

  lemma ToyPrinted(p: Position)
    ensures ToyPrint(p) != STARTING_FEN && Solid(ToyPrint(p)) && Lacks(ToyPrint(p), '\n')
  {
    var colour := if p % 2 == 0 then "w" else "b";
    var tail := colour + " " + ("-" + " " + ("-" + " " + ("0" + " " + Decimal(p / 2 + 1))));
    ToyTail(colour, Decimal(p / 2 + 1));
    assert Lacks("4k3/8/8/8/", '\n') && Lacks("8/8/8/4K3", '\n') && Lacks(TOY_BOARD, '\n');
    assert ToyPrint(p) == TOY_BOARD + " " + tail;
    assert TOY_BOARD[0] == '4' && START_BOARD[0] == 'r' && ToyPrint(p)[0] == '4' && STARTING_FEN[0] == 'r';
  }

  lemma ToyTail(colour: string, d: string)
    requires d != "" && AllDigits(d) && Lacks(colour, '\n')
    ensures var tail := colour + " " + ("-" + " " + ("-" + " " + ("0" + " " + d)));
      Lacks(tail, '\n') && IsDigit(tail[|tail| - 1])
  {
    var tail := colour + " " + ("-" + " " + ("-" + " " + ("0" + " " + d)));
    assert Lacks(d, '\n') && tail[|tail| - 1] == d[|d| - 1];
  }

  lemma ToyLine(mv: M.Move)
    requires mv.san == Encode(Toy(), 0, 0) && mv.fromFen == ToyPrint(0) && mv.toFen == ToyPrint(1)
    ensures CanonicalLine(Toy(), 0, [mv])
  {
    var r := Toy();
    assert r.valid(0) == [0, 1] && 0 in r.valid(0) && r.update(0, 0) == 1;
    assert IsPlayed(r, 0, 0, mv);
    assert [mv][1..] == [];
    assert CanonicalLine(r, 1, [mv][1..]);
  }
}
