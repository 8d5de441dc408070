/** Comments from ';' to the end of the line (PGN section 5). The parser joins the movetext lines with
    spaces before it scans them (chesskit/pgn.go): what that loses, and exactly when it loses
    nothing. */
module LineComments {
  import opened Text
  import opened Sorting
  import opened ChessRules
  import opened SanMoves
  import opened PgnTags
  import opened PgnParser
  import M = Movetext
  import W = MovetextWriter
  import T = PgnRoundTrip
  import Clock

  // ---------- what is lost ----------

  /** The movetext of a chunk is one line. */
  lemma MovetextIsOneLine(chunk: string)
    ensures Lacks(Trim(Join(OtherLines(Split(chunk, '\n')), " ")), '\n')
  {
    var lines := Split(chunk, '\n');
    SplitLacks(chunk, '\n');
    OtherLinesLack(lines);
    var text := Join(OtherLines(lines), " ");
    TrimLeftShape(text);
    TrimRightShape(TrimLeft(text));
  }

  lemma {:induction false} OtherLinesLack(lines: seq<string>)
    requires forall l :: l in lines ==> Lacks(l, '\n')
    ensures forall l :: l in OtherLines(lines) ==> Lacks(l, '\n')
    ensures Lacks(Join(OtherLines(lines), " "), '\n')
  {
    if lines == [] {
    } else {
      assert Lacks(lines[0], '\n') && forall l :: l in lines[1..] ==> l in lines;
      OtherLinesLack(lines[1..]);
      var rest := OtherLines(lines[1..]);
      if IsTag(lines[0]) {
        assert OtherLines(lines) == rest;
      } else if rest == [] {
        assert OtherLines(lines) == [lines[0]];
      } else {
        JoinCons(lines[0], rest, " ");
      }
    }
  }

  /** Once the scanner of a chunk meets a ';' it records nothing more: the line ends that would
      close the comment were replaced by spaces. */
  lemma SemicolonSwallowsRest(chunk: string, i: nat, st: M.Scan)
    requires var text := Trim(Join(OtherLines(Split(chunk, '\n')), " ")); i < |text| && text[i] == ';'
    ensures M.ScanFrom(Trim(Join(OtherLines(Split(chunk, '\n')), " "))[i..], st) == st
  {
    var text := Trim(Join(OtherLines(Split(chunk, '\n')), " "));
    MovetextIsOneLine(chunk);
    var s := text[i..];
    assert Lacks(s, '\n') && s[M.StepLength(s)..] == "";
  }

  // ---------- line ends as spaces ----------

  function FlatChar(c: char): char {
    if c == '\n' then ' ' else c
  }

  /** The text with spaces for line ends. */
  function Flat(s: string): (t: string)
    ensures |t| == |s|
    ensures forall i :: 0 <= i < |s| ==> t[i] == FlatChar(s[i])
  {
    seq(|s|, i requires 0 <= i < |s| => FlatChar(s[i]))
  }

  lemma FlatSlice(s: string, i: nat, j: nat)
    requires i <= j <= |s|
    ensures Flat(s)[i..j] == Flat(s[i..j])
  {
  }

  lemma FlatRest(s: string, i: nat)
    requires i <= |s|
    ensures Flat(s)[i..] == Flat(s[i..])
  {
  }

  lemma FlatAppend(a: string, b: string)
    ensures Flat(a + b) == Flat(a) + Flat(b)
  {
  }

  lemma FlatOneLine(s: string)
    requires Lacks(s, '\n')
    ensures Flat(s) == s
  {
  }

  lemma {:induction false} FlatTrimLeft(s: string)
    ensures TrimLeft(Flat(s)) == Flat(TrimLeft(s))
  {
    if s == "" {
    } else {
      FlatRest(s, 1);
      FlatTrimLeft(s[1..]);
    }
  }

  lemma {:induction false} FlatTrimRight(s: string)
    ensures TrimRight(Flat(s)) == Flat(TrimRight(s))
  {
    if s == "" {
    } else {
      FlatSlice(s, 0, |s| - 1);
      FlatTrimRight(s[..|s| - 1]);
      assert Flat(s)[..|s| - 1] == Flat(s[..|s| - 1]);
    }
  }

  lemma FlatTrim(s: string)
    ensures Trim(Flat(s)) == Flat(Trim(s))
  {
    FlatTrimLeft(s);
    FlatTrimRight(TrimLeft(s));
  }

  lemma {:induction false} FlatIndexOf(s: string, c: char)
    requires c != ' ' && c != '\n'
    ensures IndexOf(Flat(s), c) == IndexOf(s, c)
  {
    if s == "" {
    } else {
      FlatRest(s, 1);
      FlatIndexOf(s[1..], c);
    }
  }

  lemma {:induction false} FlatWordEnd(s: string)
    ensures M.WordEnd(Flat(s)) == M.WordEnd(s)
  {
    if s == "" {
    } else {
      FlatRest(s, 1);
      FlatWordEnd(s[1..]);
    }
  }

  lemma {:induction false} FlatCountDigits(s: string)
    ensures M.CountDigits(Flat(s)) == M.CountDigits(s)
  {
    if s == "" {
    } else {
      FlatRest(s, 1);
      FlatCountDigits(s[1..]);
    }
  }

  lemma {:induction false} FlatVariation(s: string, depth: int)
    ensures M.VariationLength(Flat(s), depth) == M.VariationLength(s, depth)
  {
    if s == "" {
    } else {
      FlatRest(s, 1);
      FlatVariation(s[1..], depth + 1);
      FlatVariation(s[1..], depth - 1);
      FlatVariation(s[1..], depth);
    }
  }

  // ---------- scanning the flat text ----------

  function FlatToken(t: M.Token): M.Token {
    t.(comment := Flat(t.comment))
  }

  function FlatScan(st: M.Scan): M.Scan {
    st.(toks := Map(FlatToken, st.toks))
  }

  lemma FlatStepLength(s: string)
    requires s != "" && s[0] != ';'
    ensures M.StepLength(Flat(s)) == M.StepLength(s)
  {
    FlatIndexOf(s, '}');
    FlatVariation(s, 0);
    FlatWordEnd(s);
    FlatRest(s, 1);
    FlatCountDigits(s[1..]);
  }

  lemma FlatStepEffect(s: string, st: M.Scan)
    requires s != "" && s[0] != ';'
    ensures M.StepEffect(Flat(s), FlatScan(st)) == FlatScan(M.StepEffect(s, st))
  {
    if s[0] == '{' {
      var e := IndexOf(s, '}');
      FlatIndexOf(s, '}');
      if e < 0 { FlatRest(s, 1); } else { FlatSlice(s, 1, e); }
      FlatComment(st, if e < 0 then s[1..] else s[1..e]);
    } else if !(M.IsBlank(s[0]) || s[0] == '(' || s[0] == '$') {
      FlatWordEnd(s);
      FlatOneLine(s[..M.WordEnd(s)]);
      FlatSlice(s, 0, M.WordEnd(s));
      FlatWord(st, s[..M.WordEnd(s)]);
    }
  }

  lemma FlatComment(st: M.Scan, body: string)
    ensures M.AddComment(FlatScan(st), Flat(body)) == FlatScan(M.AddComment(st, body))
  {
    if st.toks != [] {
      var t := st.toks[|st.toks| - 1];
      FlatTrim(body);
      FlatAppend(t.comment, " ");
      FlatAppend(if t.comment == "" then "" else t.comment + " ", Trim(body));
      assert Flat(" ") == " ";
      assert M.AddComment(FlatScan(st), Flat(body)).toks == FlatScan(M.AddComment(st, body)).toks;
    }
  }

  lemma FlatWord(st: M.Scan, word: string)
    ensures M.AddWord(FlatScan(st), word) == FlatScan(M.AddWord(st, word))
  {
    assert forall san: string :: FlatToken(M.Token(san, "")) == M.Token(san, "");
    assert M.AddWord(FlatScan(st), word).toks == FlatScan(M.AddWord(st, word)).toks;
  }

  // ---------- up to the first line comment ----------

  /** Where the scanner meets its first ';': the text behind the end of that line, and what was
      recorded before. */
  datatype Cut = Cut(rest: string, st: M.Scan)

  function CutAt(s: string, st: M.Scan): Cut
    decreases |s|
  {
    if s == "" then Cut("", st)
    else if s[0] == ';' then
      var e := IndexOf(s, '\n');
      Cut(if e < 0 then "" else s[e + 1..], st)
    else CutAt(s[M.StepLength(s)..], M.StepEffect(s, st))
  }

  /** Scanning goes on behind the comment. */
  lemma {:induction false} CutScans(s: string, st: M.Scan)
    ensures M.ScanFrom(s, st) == M.ScanFrom(CutAt(s, st).rest, CutAt(s, st).st)
    decreases |s|
  {
    if s == "" {
    } else if s[0] != ';' {
      CutScans(s[M.StepLength(s)..], M.StepEffect(s, st));
    }
  }

  /** Scanning the flat text ends at the comment. */
  lemma {:induction false} FlatScans(s: string, st: M.Scan)
    ensures M.ScanFrom(Flat(s), FlatScan(st)) == FlatScan(CutAt(s, st).st)
    decreases |s|
  {
    if s == "" {
    } else if s[0] == ';' {
      assert Lacks(Flat(s), '\n') && Flat(s)[M.StepLength(Flat(s))..] == "";
    } else {
      FlatStepLength(s);
      FlatStepEffect(s, st);
      FlatRest(s, M.StepLength(s));
      FlatScans(s[M.StepLength(s)..], M.StepEffect(s, st));
    }
  }

  // ---------- what a reading is ----------

  /** The two scans have the same moves, clocks and result. */
  ghost predicate SameReading(a: M.Scan, b: M.Scan) {
    && |a.toks| == |b.toks| && a.result == b.result
    && forall i :: 0 <= i < |a.toks| ==> SameToken(a.toks[i], b.toks[i])
  }

  predicate SameToken(a: M.Token, b: M.Token) {
    a.san == b.san && Clock.ClockFromComment(a.comment) == Clock.ClockFromComment(b.comment)
  }

  lemma {:induction false} FlatSkip(s: string)
    ensures Clock.SkipReSpace(Flat(s)) == Flat(Clock.SkipReSpace(s))
  {
    if s == "" {
    } else {
      FlatRest(s, 1);
      FlatSkip(s[1..]);
    }
  }

  lemma {:induction false} FlatDigits(s: string, stop: char)
    requires stop != ' ' && stop != '\n'
    ensures Clock.DigitsBefore(s, stop).None? ==> Clock.DigitsBefore(Flat(s), stop).None?
    ensures Clock.DigitsBefore(s, stop).Some? ==>
      Clock.DigitsBefore(Flat(s), stop)
      == Some((Clock.DigitsBefore(s, stop).value.0, Flat(Clock.DigitsBefore(s, stop).value.1)))
  {
    if s == "" {
    } else if IsDigit(s[0]) {
      FlatRest(s, 1);
      FlatOneLine(s[..1]);
      FlatSlice(s, 0, 1);
      if |s| > 1 && s[1] == stop { FlatRest(s, 2); } else { FlatDigits(s[1..], stop); }
    }
  }

  lemma FlatReadClock(s: string)
    ensures Clock.ReadClock(Flat(s)) == Clock.ReadClock(s)
  {
    FlatDigits(s, ':');
    var h := Clock.DigitsBefore(s, ':');
    if h.Some? {
      FlatDigits(h.value.1, ':');
      var m := Clock.DigitsBefore(h.value.1, ':');
      if m.Some? { FlatDigits(m.value.1, ']'); }
    }
  }

  lemma FlatClockAt(s: string)
    ensures Clock.ClockAt(Flat(s)) == Clock.ClockAt(s)
  {
    FlatPrefix(s);
    if "[%clk" <= s {
      var t := s[5..];
      FlatRest(s, 5);
      FlatSkip(t);
      assert Clock.SkipReSpace(t) == t <==> |Clock.SkipReSpace(t)| == |t| by { SkipShorter(t); }
      SkipShorter(Flat(t));
      FlatReadClock(Clock.SkipReSpace(t));
    }
  }

  lemma SkipShorter(t: string)
    ensures Clock.SkipReSpace(t) == t <==> |Clock.SkipReSpace(t)| == |t|
  {
  }

  lemma FlatPrefix(s: string)
    ensures "[%clk" <= Flat(s) <==> "[%clk" <= s
  {
    var p := "[%clk";
    assert forall i :: 0 <= i < |p| ==> p[i] != ' ' && p[i] != '\n';
    if |s| >= 5 { assert p <= s <==> forall i :: 0 <= i < 5 ==> s[i] == p[i]; }
  }

  lemma {:induction false} FlatClock(s: string)
    ensures Clock.ClockFromComment(Flat(s)) == Clock.ClockFromComment(s)
  {
    if s == "" {
    } else {
      FlatClockAt(s);
      FlatRest(s, 1);
      FlatClock(s[1..]);
    }
  }

  lemma FlatReads(st: M.Scan)
    ensures SameReading(FlatScan(st), st)
  {
    forall i | 0 <= i < |st.toks| ensures SameToken(FlatScan(st).toks[i], st.toks[i]) {
      FlatClock(st.toks[i].comment);
    }
  }

  // ---------- when nothing is lost ----------

  /** What the scanner would record behind its first ';' comment adds no move, clock or result. */
  ghost predicate NothingBehind(text: string) {
    var cut := CutAt(text, M.Scan([], ""));
    SameReading(cut.st, M.ScanFrom(cut.rest, cut.st))
  }

  /** Spaces for line ends leave the reading of a text as it is if and only if there is nothing behind
      the line of its first ';' comment. */
  lemma FlatReadsExactly(text: string)
    ensures SameReading(M.Tokenize(Flat(text)), M.Tokenize(text)) <==> NothingBehind(text)
  {
    var st := M.Scan([], "");
    var cut := CutAt(text, st);
    assert FlatScan(st) == st;
    CutScans(text, st);
    FlatScans(text, st);
    FlatReads(cut.st);
    Transfer(FlatScan(cut.st), cut.st, M.Tokenize(text));
  }

  lemma Transfer(a: M.Scan, b: M.Scan, c: M.Scan)
    requires SameReading(a, b)
    ensures SameReading(a, c) <==> SameReading(b, c)
  {
    if SameReading(a, c) {
      forall i | 0 <= i < |b.toks| ensures SameToken(b.toks[i], c.toks[i]) {
        assert SameToken(a.toks[i], b.toks[i]) && SameToken(a.toks[i], c.toks[i]);
      }
    }
    if SameReading(b, c) {
      forall i | 0 <= i < |a.toks| ensures SameToken(a.toks[i], c.toks[i]) {
        assert SameToken(a.toks[i], b.toks[i]) && SameToken(b.toks[i], c.toks[i]);
      }
    }
  }

  lemma {:induction false} NoCommentNoCut(s: string, st: M.Scan)
    requires Lacks(s, ';')
    ensures CutAt(s, st).rest == ""
    decreases |s|
  {
    if s == "" {
    } else {
      NoCommentNoCut(s[M.StepLength(s)..], M.StepEffect(s, st));
    }
  }

  // ---------- chunks ----------

  /** The movetext of a chunk as the parser scans it. */
  function JoinedMovetext(chunk: string): string {
    Trim(Join(OtherLines(Split(chunk, '\n')), " "))
  }

  /** The same movetext with its line ends. */
  function LinedMovetext(chunk: string): string {
    Trim(Join(OtherLines(Split(chunk, '\n')), "\n"))
  }

  lemma {:induction false} FlatJoin(lines: seq<string>)
    requires forall l :: l in lines ==> Lacks(l, '\n')
    ensures Join(lines, " ") == Flat(Join(lines, "\n"))
  {
    if lines == [] {
    } else {
      FlatOneLine(lines[0]);
      if |lines| > 1 {
        assert forall l :: l in lines[1..] ==> l in lines;
        FlatJoin(lines[1..]);
        var rest := Join(lines[1..], "\n");
        FlatAppend(lines[0] + "\n", rest);
        FlatAppend(lines[0], "\n");
        assert Flat("\n") == " ";
      }
    }
  }

  lemma JoinedIsFlat(chunk: string)
    ensures JoinedMovetext(chunk) == Flat(LinedMovetext(chunk))
  {
    var lines := OtherLines(Split(chunk, '\n'));
    SplitLacks(chunk, '\n');
    OtherLinesLack(Split(chunk, '\n'));
    FlatJoin(lines);
    FlatTrim(Join(lines, "\n"));
  }

  /** The moves that are played depend on the reading only. */
  lemma {:induction false} SamePlay(r: Rules, p: Position, a: seq<M.Token>, b: seq<M.Token>)
    requires |a| == |b| && forall i :: 0 <= i < |a| ==> SameToken(a[i], b[i])
    ensures PlayTokens(r, p, a) == PlayTokens(r, p, b)
    decreases |a|
  {
    if a == [] {
    } else {
      assert SameToken(a[0], b[0]);
      forall i | 0 <= i < |a[1..]| ensures SameToken(a[1..][i], b[1..][i]) { assert SameToken(a[i + 1], b[i + 1]); }
      if Resolve(r, p, a[0].san).Ok? {
        SamePlay(r, r.update(p, Resolve(r, p, a[0].san).value.0), a[1..], b[1..]);
      }
    }
  }

  lemma SameGame(r: Rules, h: Header, a: string, b: string)
    requires SameReading(M.Tokenize(a), M.Tokenize(b))
    ensures GameOf(r, h, a) == GameOf(r, h, b)
  {
    var first := ReadFen(r, StartFen(h));
    if first.Some? { SamePlay(r, first.value, M.Tokenize(a).toks, M.Tokenize(b).toks); }
  }

  /** A chunk is read as if its ';' comments ended with their lines if and only if nothing stands
      behind the line of the first one. */
  lemma CommentsEndExactly(chunk: string)
    ensures SameReading(M.Tokenize(JoinedMovetext(chunk)), M.Tokenize(LinedMovetext(chunk)))
      <==> NothingBehind(LinedMovetext(chunk))
  {
    JoinedIsFlat(chunk);
    FlatReadsExactly(LinedMovetext(chunk));
  }

  /** Without a ';' in its movetext lines, a chunk gives the game that its lines give. */
  lemma NoCommentNothingLost(r: Rules, chunk: string)
    requires forall l :: l in OtherLines(Split(chunk, '\n')) ==> Lacks(l, ';')
    ensures SameReading(M.Tokenize(JoinedMovetext(chunk)), M.Tokenize(LinedMovetext(chunk)))
    ensures ParsedChunk(r, chunk) == GameOf(r, ReadTags(NoTags(), Split(chunk, '\n')), LinedMovetext(chunk))
  {
    var text := LinedMovetext(chunk);
    LinesLack(OtherLines(Split(chunk, '\n')), ';');
    TrimLacks(Join(OtherLines(Split(chunk, '\n')), "\n"), ';');
    NoCommentNoCut(text, M.Scan([], ""));
    assert M.ScanFrom("", CutAt(text, M.Scan([], "")).st) == CutAt(text, M.Scan([], "")).st;
    CommentsEndExactly(chunk);
    SameGame(r, ReadTags(NoTags(), Split(chunk, '\n')), JoinedMovetext(chunk), text);
  }

  lemma {:induction false} LinesLack(lines: seq<string>, c: char)
    requires c != '\n' && forall l :: l in lines ==> Lacks(l, c)
    ensures Lacks(Join(lines, "\n"), c)
  {
    if lines == [] {
    } else {
      assert Lacks(lines[0], c) && forall l :: l in lines[1..] ==> l in lines;
      LinesLack(lines[1..], c);
    }
  }

  lemma TrimLacks(s: string, c: char)
    requires Lacks(s, c)
    ensures Lacks(Trim(s), c)
  {
    TrimLeftShape(s);
    TrimRightShape(TrimLeft(s));
  }

  // ---------- a game that loses its second move ----------

  lemma CommentedWord(a: string, rest: string, st: M.Scan)
    requires W.WordSafe(a)
    ensures M.ScanFrom(a + " ;" + rest, st) == M.ScanFrom(";" + rest, W.Plus(st, [M.Token(a, "")]))
  {
    var tail := ";" + rest;
    W.SafeWordEffect(a, st);
    W.ScanPart(a, " " + tail, st);
    assert a + " ;" + rest == a + (" " + tail);
    assert (" " + tail)[1..] == tail;
  }

  /** Joined by spaces, a line comment takes the move of the next line with it. */
  lemma JoinedLosesOne(a: string, b: string)
    requires W.WordSafe(a) && W.WordSafe(b)
    ensures M.Tokenize(a + " ; " + b) == M.Scan([M.Token(a, "")], "")
  {
    var st := M.Scan([], "");
    CommentedWord(a, " " + b, st);
    assert a + " ; " + b == a + " ;" + (" " + b);
    assert (" " + b)[1..] == b && Lacks(b, '\n');
    Swallowed(" " + b, W.Plus(st, [M.Token(a, "")]));
  }

  /** With the line end, both moves are there. */
  lemma LinesKeepTwo(a: string, b: string)
    requires W.WordSafe(a) && W.WordSafe(b)
    ensures M.Tokenize(a + " ;\n" + b) == M.Scan([M.Token(a, ""), M.Token(b, "")], "")
  {
    var st := M.Scan([], "");
    CommentedWord(a, "\n" + b, st);
    assert a + " ;\n" + b == a + " ;" + ("\n" + b);
    EndedThenWord(b, W.Plus(st, [M.Token(a, "")]));
  }

  lemma EndedThenWord(b: string, st: M.Scan)
    requires W.WordSafe(b)
    ensures M.ScanFrom(";" + ("\n" + b), st) == st.(toks := st.toks + [M.Token(b, "")])
  {
    Ended(b, st);
    LastWord(b, st);
  }

  lemma LastWord(b: string, st: M.Scan)
    requires W.WordSafe(b)
    ensures M.ScanFrom(b, st) == st.(toks := st.toks + [M.Token(b, "")])
  {
    W.SafeWordEffect(b, st);
    W.ScanPart(b, "", st);
    assert b + "" == b;
  }

  lemma Swallowed(rest: string, st: M.Scan)
    requires rest != "" && rest[0] == ' ' && Lacks(rest[1..], '\n')
    ensures M.ScanFrom(";" + rest, st) == st
  {
    var s := ";" + rest;
    assert Lacks(s, '\n') by { assert forall i :: 1 < i < |s| ==> s[i] == rest[1..][i - 2]; }
    assert s[M.StepLength(s)..] == "";
  }

  lemma Ended(rest: string, st: M.Scan)
    ensures M.ScanFrom(";" + ("\n" + rest), st) == M.ScanFrom(rest, st)
  {
    var s := ";" + ("\n" + rest);
    assert s[..1] == ";";
    IndexOfAt(s, '\n', 1);
    assert s[2..] == rest;
  }

  /** A chunk of the toy rules with a start position and two moves on two lines. */
  function LostChunk(): string {
    Join(LostLines(), "\n")
  }

  function LostLines(): seq<string> {
    [TagLine("FEN", ToyPrint(0)), "Nbd2 ;", "Nfd2"]
  }

  lemma LostLinesSplit()
    ensures Split(LostChunk(), '\n') == LostLines()
    ensures T.TagShape(TagLine("FEN", ToyPrint(0)))
  {
    LostTag();
    PlainLines();
    ThreeLines(TagLine("FEN", ToyPrint(0)), "Nbd2 ;", "Nfd2");
  }

  lemma LostTag()
    ensures T.TagShape(TagLine("FEN", ToyPrint(0))) && Lacks(TagLine("FEN", ToyPrint(0)), '\n')
  {
    T.ToyPrinted(0);
    T.RosterKeys();
    T.TagLineShape("FEN", ToyPrint(0));
  }

  lemma PlainLines()
    ensures Lacks("Nbd2 ;", '\n') && Lacks("Nfd2", '\n')
  {
  }

  lemma ThreeLines(a: string, b: string, c: string)
    requires Lacks(a, '\n') && Lacks(b, '\n') && Lacks(c, '\n')
    ensures Split(Join([a, b, c], "\n"), '\n') == [a, b, c]
  {
    SplitJoin([a, b, c], '\n');
  }

  lemma MoveLines()
    ensures !IsTag("Nbd2 ;") && !IsTag("Nfd2")
  {
    assert Clock.SkipReSpace("Nbd2 ;") == "Nbd2 ;" && Clock.SkipReSpace("Nfd2") == "Nfd2";
  }

  lemma LostLinesRead()
    ensures OtherLines(LostLines()) == ["Nbd2 ;", "Nfd2"]
    ensures ReadTags(NoTags(), LostLines()) == NoTags().(extra := map["FEN" := ToyPrint(0)])
  {
    var tag, rest := TagLine("FEN", ToyPrint(0)), ["Nbd2 ;", "Nfd2"];
    LostLinesSplit();
    MoveLines();
    T.ToyPrinted(0);
    T.RosterKeys();
    assert LostLines() == [tag] + rest;
    T.OthersAfterTags([tag], rest);
    T.ReadTagLine(NoTags(), "FEN", ToyPrint(0), rest);
    T.ReadOthers(ApplyTag(NoTags(), "FEN", ToyPrint(0)), rest);
    T.NotRoster(NoTags(), "FEN", ToyPrint(0));
    assert "FEN"[0] == 'F' && "Board"[0] == 'B';
  }

  lemma LostStart()
    ensures StartFen(ReadTags(NoTags(), LostLines())) == ToyPrint(0)
  {
    LostLinesRead();
    T.ToyPrinted(0);
    TrimSolid(ToyPrint(0));
  }

  lemma TwoLines(a: string, b: string, sep: string)
    requires Solid(a) && Solid(b)
    ensures Trim(Join([a + " ;", b], sep)) == a + (" ;" + sep) + b
  {
    var text := a + (" ;" + sep) + b;
    assert [a + " ;", b][1..] == [b];
    assert a + " ;" + sep + b == text;
    assert text[0] == a[0] && text[|text| - 1] == b[|b| - 1];
    TrimSolid(text);
  }

  lemma LostTexts()
    ensures JoinedMovetext(LostChunk()) == "Nbd2" + " ; " + "Nfd2"
    ensures LinedMovetext(LostChunk()) == "Nbd2" + " ;\n" + "Nfd2"
  {
    LostLinesSplit();
    LostLinesRead();
    LostJoins();
  }

  lemma LostJoins()
    ensures Trim(Join(["Nbd2 ;", "Nfd2"], " ")) == "Nbd2" + " ; " + "Nfd2"
    ensures Trim(Join(["Nbd2 ;", "Nfd2"], "\n")) == "Nbd2" + " ;\n" + "Nfd2"
  {
    TwoLines("Nbd2", "Nfd2", " ");
    TwoLines("Nbd2", "Nfd2", "\n");
    assert "Nbd2" + " ;" == "Nbd2 ;" && " ;" + " " == " ; " && " ;" + "\n" == " ;\n";
  }

  lemma ToyText(p: Position, m: Move)
    ensures Encode(Toy(), p, m) == Core(ToySan(p, m))
  {
    assert Encode(Toy(), p, m) == Core(ToySan(p, m)) + "";
  }

  lemma ToyWord(p: Position, m: Move)
    requires m == 0 || m == 1
    ensures W.WordSafe(Core(ToySan(p, m)))
    ensures Resolve(Toy(), p, Core(ToySan(p, m))) == Ok((m, Core(ToySan(p, m))))
  {
    ToyLawful();
    assert m in Toy().valid(p);
    ResolveEncoded(Toy(), p, m);
    T.EncodedSafe(Toy(), p, m);
    ToyText(p, m);
  }

  lemma ToyWords(p: Position)
    ensures W.WordSafe("Nbd2") && W.WordSafe("Nfd2")
    ensures Resolve(Toy(), p, "Nbd2") == Ok((0, "Nbd2")) && Resolve(Toy(), p, "Nfd2") == Ok((1, "Nfd2"))
  {
    ToyCore(p);
    ToyWord(p, 0);
    ToyWord(p, 1);
  }

  lemma PlaysFirst(r: Rules, p: Position, toks: seq<M.Token>, m: Move, canonical: string)
    requires toks != [] && Resolve(r, p, toks[0].san) == Ok((m, canonical))
    ensures |PlayTokens(r, p, toks)| == 1 + |PlayTokens(r, r.update(p, m), toks[1..])|
  {
  }

  lemma ToyPlays()
    ensures |PlayTokens(Toy(), 0, [M.Token("Nbd2", "")])| == 1
    ensures |PlayTokens(Toy(), 0, [M.Token("Nbd2", ""), M.Token("Nfd2", "")])| == 2
  {
    var a, b := M.Token("Nbd2", ""), M.Token("Nfd2", "");
    ToyWords(0);
    ToyWords(1);
    PlaysFirst(Toy(), 0, [a], 0, "Nbd2");
    PlaysFirst(Toy(), 0, [a, b], 0, "Nbd2");
    PlaysFirst(Toy(), 1, [b], 1, "Nfd2");
    assert [a][1..] == [] && [a, b][1..] == [b] && [b][1..] == [];
  }

  /** The parser finds one move in it, where its lines hold two that can be played. */
  lemma MoveLost()
    ensures ParsedChunk(Toy(), LostChunk()).Some? && |ParsedChunk(Toy(), LostChunk()).value.moves| == 1
    ensures var lined := GameOf(Toy(), ReadTags(NoTags(), Split(LostChunk(), '\n')), LinedMovetext(LostChunk()));
      lined.Some? && |lined.value.moves| == 2
    ensures !NothingBehind(LinedMovetext(LostChunk()))
  {
    var h := ReadTags(NoTags(), LostLines());
    LostLinesSplit();
    LostTexts();
    LostStart();
    ToyWords(0);
    JoinedLosesOne("Nbd2", "Nfd2");
    LinesKeepTwo("Nbd2", "Nfd2");
    ToyPlays();
    GameMoves(h, JoinedMovetext(LostChunk()), M.Tokenize(JoinedMovetext(LostChunk())).toks);
    GameMoves(h, LinedMovetext(LostChunk()), M.Tokenize(LinedMovetext(LostChunk())).toks);
    CommentsEndExactly(LostChunk());
  }

  lemma GameMoves(h: Header, movetext: string, toks: seq<M.Token>)
    requires StartFen(h) == ToyPrint(0) && M.Tokenize(movetext).toks == toks
    requires PlayTokens(Toy(), 0, toks) != []
    ensures GameOf(Toy(), h, movetext).Some?
    ensures GameOf(Toy(), h, movetext).value.moves == PlayTokens(Toy(), 0, toks)
  {
    ToyReadsBack(0);
  }
}
