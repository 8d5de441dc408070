/** Which lines are tag pairs, and what a header holds after reading them (chesskit/pgn.go). */
module TagGrammar {
  import opened Text
  import opened PgnTags
  import Clock
  import P = PgnParser
  import M = Movetext
  import opened ChessRules
  import SanMoves

  // ---------- the form of a tag line ----------

  /** White space of a regular expression. */
  ghost predicate Gap(s: string) {
    forall i :: 0 <= i < |s| ==> s[i] in " \t\n\r\U{0C}"
  }

  /** No quote stands bare, and every backslash has a character of the same line behind it. */
  ghost predicate IsValue(val: string) {
    if val == "" then true
    else if val[0] == '\\' then |val| >= 2 && val[1] != '\n' && IsValue(val[2..])
    else val[0] != '"' && IsValue(val[1..])
  }

  /** A pair in brackets, with white space anywhere but inside the key, and some behind the key. */
  ghost predicate IsTagLine(
    line: string, key: string, val: string, a: string, b: string, c: string, d: string, e: string)
  {
    && line == a + ("[" + (b + (key + (c + ("\"" + (val + ("\"" + (d + ("]" + e)))))))))
    && Gap(a) && Gap(b) && Gap(c) && c != "" && Gap(d) && Gap(e)
    && TagKey(key) && IsValue(val)
  }

  /** Letters, digits and underscores. */
  ghost predicate TagKey(key: string) {
    key != "" && forall i :: 0 <= i < |key| ==>
      'A' <= key[i] <= 'Z' || 'a' <= key[i] <= 'z' || '0' <= key[i] <= '9' || key[i] == '_'
  }

  lemma SpaceChars(c: char)
    ensures c in " \t\n\r\U{0C}" <==> Clock.IsReSpace(c)
  {
  }

  lemma Skips(gap: string, rest: string)
    requires Gap(gap) && (rest == "" || !Clock.IsReSpace(rest[0]))
    ensures Clock.SkipReSpace(gap + rest) == rest
  {
    forall i | 0 <= i < |gap| ensures Clock.IsReSpace(gap[i]) { SpaceChars(gap[i]); }
    Clock.SkipsGap(gap, rest);
  }

  lemma SkippedGap(s: string) returns (gap: string)
    ensures s == gap + Clock.SkipReSpace(s) && Gap(gap)
    ensures Clock.SkipReSpace(s) == "" || !Clock.IsReSpace(Clock.SkipReSpace(s)[0])
  {
    gap := Clock.GapOf(s);
    forall i | 0 <= i < |gap| ensures gap[i] in " \t\n\r\U{0C}" { SpaceChars(gap[i]); }
  }

  lemma {:induction false} ValueEnds(val: string, rest: string)
    requires IsValue(val) && rest != "" && rest[0] == '"'
    ensures BodyLength(val + rest) == |val|
  {
    var s := val + rest;
    if val == "" {
      assert s == rest;
    } else if val[0] == '\\' {
      assert s[2..] == val[2..] + rest;
      ValueEnds(val[2..], rest);
    } else {
      assert s[1..] == val[1..] + rest;
      ValueEnds(val[1..], rest);
    }
  }

  lemma {:induction false} BodyIsValue(s: string)
    ensures IsValue(s[..BodyLength(s)])
  {
    var k := BodyLength(s);
    if k == 0 {
    } else if s[0] == '\\' {
      BodyIsValue(s[2..]);
      assert s[..k][2..] == s[2..][..k - 2];
    } else {
      BodyIsValue(s[1..]);
      assert s[..k][1..] == s[1..][..k - 1];
    }
  }

  lemma {:induction false} KeyEnds(s: string)
    ensures forall i :: 0 <= i < KeyLength(s) ==> IsKeyChar(s[i])
    ensures KeyLength(s) < |s| ==> !IsKeyChar(s[KeyLength(s)])
  {
    if s == "" || !IsKeyChar(s[0]) {
    } else {
      KeyEnds(s[1..]);
    }
  }

  // ---------- every such line, and no other ----------

  lemma ClosingRead(d: string, e: string)
    requires Gap(d) && Gap(e)
    ensures ClosesTag("\"" + (d + ("]" + e)))
  {
    var s := "\"" + (d + ("]" + e));
    assert s[1..] == d + ("]" + e);
    Skips(d, "]" + e);
    assert ("]" + e)[1..] == e && e + "" == e;
    Skips(e, "");
  }

  lemma ClosingSplit(s: string) returns (d: string, e: string)
    requires ClosesTag(s)
    ensures s == "\"" + (d + ("]" + e)) && Gap(d) && Gap(e)
  {
    d := SkippedGap(s[1..]);
    var t := Clock.SkipReSpace(s[1..]);
    e := SkippedGap(t[1..]);
    assert t[1..] == e + "" && t == "]" + e;
    assert s == "\"" + s[1..];
  }

  lemma PairRead(key: string, val: string, c: string, rest: string)
    requires TagKey(key) && Gap(c) && c != ""
    requires IsValue(val) && ClosesTag(rest)
    ensures MatchPair(key + (c + ("\"" + (val + rest)))) == Some((key, val))
  {
    var q := "\"" + (val + rest);
    var b := key + (c + q);
    SpaceChars(c[0]);
    assert (c + q)[0] == c[0];
    KeyLengthOf(key, c + q);
    assert b[|key|..] == c + q && b[..|key|] == key;
    Skips(c, q);
    assert |c + q| > |q|;
    ValueEnds(val, rest);
    assert q[1..] == val + rest && (val + rest)[|val|..] == rest && (val + rest)[..|val|] == val;
  }

  lemma ValueSplit(q: string) returns (val: string, rest: string)
    requires MatchValue(q).Some?
    ensures q == "\"" + (val + rest) && MatchValue(q) == Some(val) && IsValue(val) && ClosesTag(rest)
  {
    var n := BodyLength(q[1..]);
    BodyIsValue(q[1..]);
    val, rest := q[1..][..n], q[1..][n..];
    assert q[1..] == val + rest && q == "\"" + q[1..];
  }

  lemma PairSplit(b: string) returns (key: string, val: string, c: string, rest: string)
    requires MatchPair(b).Some?
    ensures b == key + (c + ("\"" + (val + rest))) && MatchPair(b) == Some((key, val))
    ensures TagKey(key) && Gap(c) && c != ""
    ensures IsValue(val) && ClosesTag(rest)
  {
    var k := KeyLength(b);
    KeyEnds(b);
    key := b[..k];
    c := SkippedGap(b[k..]);
    var q := Clock.SkipReSpace(b[k..]);
    val, rest := ValueSplit(q);
    assert b == key + b[k..];
  }

  lemma TagLineRead(
    line: string, key: string, val: string, a: string, b: string, c: string, d: string, e: string)
    requires IsTagLine(line, key, val, a, b, c, d, e)
    ensures MatchTag(line) == Some((key, val))
  {
    var rest := "\"" + (d + ("]" + e));
    var pair := key + (c + ("\"" + (val + rest)));
    ClosingRead(d, e);
    PairRead(key, val, c, rest);
    assert IsKeyChar(pair[0]) by { assert pair[0] == key[0]; }
    Skips(b, pair);
    var inner := "[" + (b + pair);
    assert inner[1..] == b + pair;
    Skips(a, inner);
  }

  lemma TagLineSplit(line: string)
    returns (key: string, val: string, a: string, b: string, c: string, d: string, e: string)
    requires MatchTag(line).Some?
    ensures IsTagLine(line, key, val, a, b, c, d, e) && MatchTag(line) == Some((key, val))
  {
    a := SkippedGap(line);
    var inner := Clock.SkipReSpace(line);
    b := SkippedGap(inner[1..]);
    var pair := Clock.SkipReSpace(inner[1..]);
    var rest;
    key, val, c, rest := PairSplit(pair);
    d, e := ClosingSplit(rest);
    assert inner == "[" + (b + pair);
  }

  /** A line is a tag pair with this key and this still escaped value if and only if it has that form. */
  lemma MatchExactly(line: string, key: string, val: string)
    ensures MatchTag(line) == Some((key, val)) <==>
      exists a, b, c, d, e :: IsTagLine(line, key, val, a, b, c, d, e)
  {
    if MatchTag(line) == Some((key, val)) {
      var key', val', a, b, c, d, e := TagLineSplit(line);
      assert IsTagLine(line, key, val, a, b, c, d, e);
    }
    if a, b, c, d, e :| IsTagLine(line, key, val, a, b, c, d, e) {
      TagLineRead(line, key, val, a, b, c, d, e);
    }
  }

  // ---------- what a header holds ----------

  /** The last line with this key has this still escaped value. */
  ghost predicate LastTag(lines: seq<string>, key: string, val: string) {
    exists i :: IsLastTag(lines, key, val, i)
  }

  ghost predicate IsLastTag(lines: seq<string>, key: string, val: string, i: int) {
    && 0 <= i < |lines| && MatchTag(lines[i]) == Some((key, val))
    && Untagged(lines[i + 1..], key)
  }

  /** No line has this key. */
  ghost predicate Untagged(lines: seq<string>, key: string) {
    forall i :: 0 <= i < |lines| && MatchTag(lines[i]).Some? ==> MatchTag(lines[i]).value.0 != key
  }

  predicate Named(key: string) {
    key in ["Event", "Site", "Date", "Round", "White", "Black", "Board", "Result"]
  }

  /** The header has this value for this key. */
  ghost predicate Holds(h: Header, key: string, val: string) {
    && (key == "Event" ==> h.event == val)
    && (key == "Site" ==> h.site == val)
    && (key == "Date" ==> h.date == val)
    && (key == "Round" ==> h.round == val)
    && (key == "White" ==> h.white == val)
    && (key == "Black" ==> h.black == val)
    && (key == "Board" ==> h.board == val)
    && (key == "Result" ==> h.result == NormalizeResult(val))
    && (!Named(key) ==> key in h.extra && h.extra[key] == val)
  }

  /** What two headers have for a key. */
  ghost predicate SameTag(a: Header, b: Header, key: string) {
    && (key == "Event" ==> a.event == b.event)
    && (key == "Site" ==> a.site == b.site)
    && (key == "Date" ==> a.date == b.date)
    && (key == "Round" ==> a.round == b.round)
    && (key == "White" ==> a.white == b.white)
    && (key == "Black" ==> a.black == b.black)
    && (key == "Board" ==> a.board == b.board)
    && (key == "Result" ==> a.result == b.result)
    && (key in a.extra <==> key in b.extra) && (key in a.extra ==> a.extra[key] == b.extra[key])
  }

  lemma TagHeld(h: Header, key: string, val: string)
    ensures Holds(ApplyTag(h, key, val), key, val)
    ensures Named(key) ==> ApplyTag(h, key, val).extra == h.extra
  {
  }

  lemma OthersKept(h: Header, key: string, val: string, other: string)
    requires other != key
    ensures SameTag(h, ApplyTag(h, key, val), other)
  {
  }

  lemma {:induction false} UntaggedKept(h: Header, lines: seq<string>, key: string)
    requires Untagged(lines, key)
    ensures SameTag(h, P.ReadTags(h, lines), key)
    decreases |lines|
  {
    if lines == [] {
    } else {
      var m := MatchTag(lines[0]);
      var h' := if m.Some? then ApplyTag(h, m.value.0, Unescape(m.value.1)) else h;
      if m.Some? { OthersKept(h, m.value.0, Unescape(m.value.1), key); }
      forall i | 0 <= i < |lines[1..]| && MatchTag(lines[1..][i]).Some?
        ensures MatchTag(lines[1..][i]).value.0 != key
      {
        assert lines[1..][i] == lines[i + 1];
      }
      UntaggedKept(h', lines[1..], key);
    }
  }

  lemma {:induction false} LastTagKept(h: Header, lines: seq<string>, key: string, val: string, i: nat)
    requires IsLastTag(lines, key, val, i)
    ensures Holds(P.ReadTags(h, lines), key, Unescape(val))
    decreases |lines|
  {
    var m := MatchTag(lines[0]);
    var h' := if m.Some? then ApplyTag(h, m.value.0, Unescape(m.value.1)) else h;
    if i == 0 {
      TagHeld(h, key, Unescape(val));
      UntaggedKept(h', lines[1..], key);
    } else {
      assert lines[1..][i - 1..][1..] == lines[i..][1..] == lines[i + 1..];
      assert lines[1..][(i - 1) + 1..] == lines[i + 1..];
      LastTagKept(h', lines[1..], key, val, i - 1);
    }
  }

  lemma {:induction false} ExtraUnnamed(h: Header, lines: seq<string>)
    requires forall key :: key in h.extra ==> !Named(key)
    ensures forall key :: key in P.ReadTags(h, lines).extra ==> !Named(key)
    decreases |lines|
  {
    if lines == [] {
    } else {
      var m := MatchTag(lines[0]);
      if m.Some? { TagHeld(h, m.value.0, Unescape(m.value.1)); }
      ExtraUnnamed(if m.Some? then ApplyTag(h, m.value.0, Unescape(m.value.1)) else h, lines[1..]);
    }
  }

  /** The last tag of a key decides, unescaped; without one a named field is as if its value were empty,
      and there is no extra tag. Named keys are no extra tags. */
  lemma HeaderReads(lines: seq<string>, key: string, val: string)
    ensures var h := P.ReadTags(NoTags(), lines);
      && (LastTag(lines, key, val) ==> Holds(h, key, Unescape(val)))
      && (Untagged(lines, key) && Named(key) ==> Holds(h, key, ""))
      && (Untagged(lines, key) && !Named(key) ==> key !in h.extra)
      && (Named(key) ==> key !in h.extra)
  {
    if i :| IsLastTag(lines, key, val, i) { LastTagKept(NoTags(), lines, key, val, i); }
    if Untagged(lines, key) { UntaggedKept(NoTags(), lines, key); }
    ExtraUnnamed(NoTags(), lines);
  }

  /** A key is on some line, and then on a last one, or on none. */
  lemma {:induction false} TaggedOrNot(lines: seq<string>, key: string)
    ensures Untagged(lines, key) || exists val :: LastTag(lines, key, val)
  {
    if lines == [] {
    } else {
      var init, m := lines[..|lines| - 1], MatchTag(lines[|lines| - 1]);
      if m.Some? && m.value.0 == key {
        assert IsLastTag(lines, key, m.value.1, |lines| - 1);
        assert LastTag(lines, key, m.value.1);
      } else {
        TaggedOrNot(init, key);
        if !Untagged(init, key) {
          var val :| LastTag(init, key, val);
          var i :| IsLastTag(init, key, val, i);
          LastStays(lines, key, val, i);
        }
      }
    }
  }

  lemma LastStays(lines: seq<string>, key: string, val: string, i: int)
    requires lines != [] && IsLastTag(lines[..|lines| - 1], key, val, i)
    requires var m := MatchTag(lines[|lines| - 1]); m.Some? ==> m.value.0 != key
    ensures LastTag(lines, key, val)
  {
    var init, rest := lines[..|lines| - 1], lines[i + 1..];
    forall j | 0 <= j < |rest| && MatchTag(rest[j]).Some? ensures MatchTag(rest[j]).value.0 != key {
      if j < |rest| - 1 { assert init[i + 1..][j] == rest[j]; }
    }
    assert IsLastTag(lines, key, val, i);
  }

  // ---------- the start position ----------

  /** The trimmed FEN tag, unless it is missing or blank. */
  lemma StartRead(lines: seq<string>, val: string)
    ensures var start := StartFen(P.ReadTags(NoTags(), lines));
      && (LastTag(lines, "FEN", val) && Trim(Unescape(val)) != "" ==> start == Trim(Unescape(val)))
      && (LastTag(lines, "FEN", val) && Trim(Unescape(val)) == "" ==> start == SanMoves.STARTING_FEN)
      && (Untagged(lines, "FEN") ==> start == SanMoves.STARTING_FEN)
  {
    HeaderReads(lines, "FEN", val);
  }

  // ---------- chunks ----------

  /** No tag would make a game of these lines. */
  ghost predicate NoGameTags(lines: seq<string>) {
    forall key, val :: LastTag(lines, key, val) ==>
      key in ["Date", "Round", "Board", "Result"]
      || (key in ["Event", "Site", "White", "Black"] && Unescape(val) == "")
  }

  /** A chunk is dropped if and only if it names no event, site or player, has no further tag, no
      result in its movetext, and no move that can be played from the standard position. */
  lemma DroppedExactly(r: Rules, chunk: string)
    ensures var lines := Split(chunk, '\n');
      var scan := M.Tokenize(Trim(Join(P.OtherLines(lines), " ")));
      P.ParsedChunk(r, chunk).None? <==>
        NoGameTags(lines) && scan.result == "" && P.ParsedMoves(r, SanMoves.STARTING_FEN, scan.toks) == []
  {
    var lines := Split(chunk, '\n');
    var h := P.ReadTags(NoTags(), lines);
    GameTags(lines);
    if "FEN" !in h.extra { assert StartFen(h) == SanMoves.STARTING_FEN; }
  }

  lemma GameTags(lines: seq<string>)
    ensures var h := P.ReadTags(NoTags(), lines);
      NoGameTags(lines) <==> h.event == "" && h.site == "" && h.white == "" && h.black == "" && h.extra == map[]
  {
    var h := P.ReadTags(NoTags(), lines);
    if NoGameTags(lines) {
      NamesEmpty(lines, "Event");
      NamesEmpty(lines, "Site");
      NamesEmpty(lines, "White");
      NamesEmpty(lines, "Black");
      NothingExtra(lines);
    }
    if h.event == "" && h.site == "" && h.white == "" && h.black == "" && h.extra == map[] {
      forall key, val | LastTag(lines, key, val)
        ensures key in ["Date", "Round", "Board", "Result"]
          || (key in ["Event", "Site", "White", "Black"] && Unescape(val) == "")
      {
        HeaderReads(lines, key, val);
      }
    }
  }

  lemma NamesEmpty(lines: seq<string>, key: string)
    requires NoGameTags(lines) && key in ["Event", "Site", "White", "Black"]
    ensures Holds(P.ReadTags(NoTags(), lines), key, "")
  {
    TaggedOrNot(lines, key);
    if Untagged(lines, key) {
      HeaderReads(lines, key, "");
    } else {
      var val :| LastTag(lines, key, val);
      HeaderReads(lines, key, val);
    }
  }

  lemma NothingExtra(lines: seq<string>)
    requires NoGameTags(lines)
    ensures P.ReadTags(NoTags(), lines).extra == map[]
  {
    var h := P.ReadTags(NoTags(), lines);
    ExtraUnnamed(NoTags(), lines);
    forall key ensures key !in h.extra {
      TaggedOrNot(lines, key);
      HeaderReads(lines, key, "");
    }
  }

  // ---------- results ----------

  /** A text that reads as a draw wherever it stands. */
  ghost predicate NamesDraw(key: string) {
    exists part :: part in ["\U{C2}\U{BD}", "1/2", "remis", "draw"] && Inside(key, part)
  }

  ghost predicate Inside(s: string, part: string) {
    exists k :: 0 <= k <= |s| && part <= s[k..]
  }

  lemma {:induction false} ContainsInside(s: string, part: string)
    ensures Contains(s, part) <==> Inside(s, part)
  {
    if part <= s {
      assert s[0..] == s;
    } else if s == "" {
      assert forall k :: 0 <= k <= |s| ==> s[k..] == s;
    } else {
      ContainsInside(s[1..], part);
      assert s[0..] == s;
      if k :| 0 <= k <= |s| && part <= s[k..] { assert s[1..][k - 1..] == s[k..]; }
      if k :| 0 <= k <= |s[1..]| && part <= s[1..][k..] { assert s[1..][k..] == s[k + 1..]; }
    }
  }

  /** What any text is read as, by its trimmed lower-case form with single spaces: a win or a loss by one of
      a few words or by how it starts, unless it names a draw; a draw by its words or by naming one; and
      anything else is an open game. */
  ghost predicate ReadAs(key: string, res: string) {
    var win := key in ["1:0", "1 - 0", "1 0", "white", "white wins", "1"];
    var loss := key in ["0:1", "0 - 1", "0 1", "black", "black wins"];
    var draw := key in ["0.5-0.5", "0.5", "patt", "stalemate", "="] || NamesDraw(key);
    res == if win then "1-0" else if loss then "0-1" else if draw then "1/2-1/2"
           else if "1-0" <= key then "1-0" else if "0-1" <= key then "0-1" else "*"
  }

  lemma DrawNamed(key: string)
    ensures NamesDraw(key) <==>
      Contains(key, HALF) || Contains(key, "1/2") || Contains(key, "remis") || Contains(key, "draw")
  {
    ContainsInside(key, HALF);
    ContainsInside(key, "1/2");
    ContainsInside(key, "remis");
    ContainsInside(key, "draw");
    assert HALF == "\U{C2}\U{BD}";
  }

  /** The words that name a draw anyway. */
  lemma DrawWords(key: string)
    requires key in DRAW_WORDS && key !in ["0.5-0.5", "0.5", "patt", "stalemate", "="]
    ensures NamesDraw(key)
  {
    DrawNamed(key);
  }

  lemma WinWords(key: string)
    requires key in WIN_WORDS
    ensures key in ["1:0", "1 - 0", "1 0", "white", "white wins", "1"] || key == "1-0"
  {
  }

  lemma LossWords(key: string)
    requires key in LOSS_WORDS
    ensures key in ["0:1", "0 - 1", "0 1", "black", "black wins"] || key == "0-1"
    ensures key !in WIN_WORDS
  {
  }

  lemma NotInside(s: string, part: string, c: char, j: nat)
    requires Lacks(s, c) && j < |part| && part[j] == c
    ensures !Inside(s, part)
  {
    forall k | 0 <= k <= |s| ensures !(part <= s[k..]) {
      if k + j < |s| { assert s[k..][j] == s[k + j]; }
    }
  }

  lemma Plain(key: string)
    requires Lacks(key, '\U{C2}') && Lacks(key, '/') && Lacks(key, 'm') && Lacks(key, 'd')
    ensures !NamesDraw(key)
  {
    NotInside(key, "\U{C2}\U{BD}", '\U{C2}', 0);
    NotInside(key, "1/2", '/', 1);
    NotInside(key, "remis", 'm', 2);
    NotInside(key, "draw", 'd', 0);
  }

  lemma WinRead(key: string)
    requires key in WIN_WORDS
    ensures ReadAs(key, "1-0")
  {
    WinWords(key);
    if key == "1-0" { Plain(key); }
  }

  lemma LossRead(key: string)
    requires key in LOSS_WORDS
    ensures ReadAs(key, "0-1")
  {
    LossWords(key);
    if key == "0-1" { Plain(key); }
  }

  lemma OpenRead(key: string)
    requires key in OPEN_WORDS
    ensures ReadAs(key, "*")
  {
    Plain(key);
    FirstLetters(key);
  }

  lemma FirstLetters(key: string)
    requires key in OPEN_WORDS
    ensures key != "" && key[0] in "*ou?i"
    ensures key !in ["1:0", "1 - 0", "1 0", "white", "white wins", "1"]
    ensures key !in ["0:1", "0 - 1", "0 1", "black", "black wins"]
    ensures key !in ["0.5-0.5", "0.5", "patt", "stalemate", "="]
  {
    assert forall w :: w in ["1:0", "1 - 0", "1 0", "white", "white wins", "1"] ==> w[0] in "1w";
    assert forall w :: w in ["0:1", "0 - 1", "0 1", "black", "black wins"] ==> w[0] in "0b";
    assert forall w :: w in ["0.5-0.5", "0.5", "patt", "stalemate", "="] ==> w[0] in "0ps=";
  }

  lemma DrawRead(key: string)
    requires key !in WIN_WORDS && key !in LOSS_WORDS && key in DRAW_WORDS
    ensures ReadAs(key, "1/2-1/2")
  {
    if key !in ["0.5-0.5", "0.5", "patt", "stalemate", "="] { DrawWords(key); }
  }

  lemma OtherRead(key: string)
    requires key !in WIN_WORDS && key !in LOSS_WORDS && key !in DRAW_WORDS && key !in OPEN_WORDS
    ensures ReadAs(key, ResultOf(key))
  {
    DrawNamed(key);
  }

  lemma ResultDecides(s: string)
    ensures ReadAs(ResultKey(s), NormalizeResult(s))
  {
    var key := ResultKey(s);
    if Trim(s) == "" {
      EmptyKey(s);
    } else if key in WIN_WORDS {
      WinRead(key);
    } else if key in LOSS_WORDS {
      LossRead(key);
    } else if key in DRAW_WORDS {
      DrawRead(key);
    } else if key in OPEN_WORDS {
      OpenRead(key);
    } else {
      OtherRead(key);
    }
  }

  lemma EmptyKey(s: string)
    requires Trim(s) == ""
    ensures ResultKey(s) == "" && ReadAs("", "*")
  {
    Plain("");
  }
}
