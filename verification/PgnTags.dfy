/** Tag pairs and game headers (chesskit/pgn.go, chesskit/result.go; PGN sections 7, 8.1 and 9.7). */
module PgnTags {
  import opened Text
  import opened Clock
  import Movetext
  import SanMoves

  // ---------- escapes ----------

  function Escape(s: string): string {
    ReplaceAll(ReplaceAll(s, "\\", "\\\\"), "\"", "\\\"")
  }

  function Unescape(s: string): string {
    ReplaceAll(ReplaceAll(s, "\\\"", "\""), "\\\\", "\\")
  }

  function EscapeChar(c: char): string {
    if c == '\\' then "\\\\" else if c == '"' then "\\\"" else [c]
  }

  /** The escaped form, character by character. */
  function EscapeEach(s: string): string {
    if s == "" then "" else EscapeChar(s[0]) + EscapeEach(s[1..])
  }

  lemma {:induction false} ReplaceCharAppend(a: string, b: string, c: char, with: string)
    ensures ReplaceAll(a + b, [c], with) == ReplaceAll(a, [c], with) + ReplaceAll(b, [c], with)
  {
    if a == "" {
      assert a + b == b;
    } else {
      assert (a + b)[1..] == a[1..] + b && (a + b)[..1] == a[..1];
      ReplaceCharAppend(a[1..], b, c, with);
    }
  }

  lemma ReplaceOne(x: char, c: char, with: string)
    ensures ReplaceAll([x], [c], with) == if x == c then with else [x]
  {
    assert [x][..1] == [x] && [x][1..] == "" && with + "" == with && [x] + "" == [x];
  }

  lemma EscapeOneChar(c: char)
    ensures Escape([c]) == EscapeChar(c)
  {
    ReplaceOne(c, '\\', "\\\\");
    if c == '\\' {
      assert "\\\\" == "\\" + "\\";
      ReplaceCharAppend("\\", "\\", '"', "\\\"");
      ReplaceOne('\\', '"', "\\\"");
    } else {
      ReplaceOne(c, '"', "\\\"");
    }
  }

  lemma {:induction false} EscapeIsEach(s: string)
    ensures Escape(s) == EscapeEach(s)
  {
    if s == "" {
    } else {
      assert s == [s[0]] + s[1..];
      ReplaceCharAppend([s[0]], s[1..], '\\', "\\\\");
      ReplaceCharAppend(ReplaceAll([s[0]], "\\", "\\\\"), ReplaceAll(s[1..], "\\", "\\\\"), '"', "\\\"");
      EscapeOneChar(s[0]);
      EscapeIsEach(s[1..]);
    }
  }

  /** The text after the first replacement of Unescape: quotes bare, backslashes still doubled. */
  function HalfEscaped(s: string): string {
    if s == "" then "" else (if s[0] == '\\' then "\\\\" else [s[0]]) + HalfEscaped(s[1..])
  }

  lemma {:induction false} UnescapeQuotes(s: string)
    ensures ReplaceAll(EscapeEach(s), "\\\"", "\"") == HalfEscaped(s)
  {
    if s == "" {
    } else {
      EscapedStart(s[1..]);
      UnescapeQuotes(s[1..]);
      QuoteStep(s[0], EscapeEach(s[1..]));
    }
  }

  /** A backslash that no quote follows stays. */
  lemma KeepsBackslash(rest: string)
    requires rest == "" || rest[0] != '"'
    ensures ReplaceAll("\\" + rest, "\\\"", "\"") == "\\" + ReplaceAll(rest, "\\\"", "\"")
  {
    var s := "\\" + rest;
    assert s[1..] == rest;
    if |s| >= 2 { assert s[..2][1] == rest[0]; }
  }

  lemma KeepsBackslashes(rest: string)
    requires rest == "" || rest[0] != '"'
    ensures ReplaceAll("\\\\" + rest, "\\\"", "\"") == "\\\\" + ReplaceAll(rest, "\\\"", "\"")
  {
    KeepsBackslash(rest);
    KeepsBackslash("\\" + rest);
    assert "\\\\" + rest == "\\" + ("\\" + rest);
  }

  /** The first replacement on one escaped character. */
  lemma QuoteStep(c: char, rest: string)
    requires rest == "" || rest[0] != '"'
    ensures ReplaceAll(EscapeChar(c) + rest, "\\\"", "\"")
      == (if c == '\\' then "\\\\" else [c]) + ReplaceAll(rest, "\\\"", "\"")
  {
    if c == '\\' {
      KeepsBackslashes(rest);
    } else if c == '"' {
      DropsBackslash(rest);
    } else {
      KeepsOther(c, rest);
    }
  }

  lemma DropsBackslash(rest: string)
    ensures ReplaceAll("\\\"" + rest, "\\\"", "\"") == "\"" + ReplaceAll(rest, "\\\"", "\"")
  {
    var e := "\\\"" + rest;
    assert e[..2] == "\\\"" && e[2..] == rest;
  }

  lemma KeepsOther(c: char, rest: string)
    requires c != '\\'
    ensures ReplaceAll([c] + rest, "\\\"", "\"") == [c] + ReplaceAll(rest, "\\\"", "\"")
  {
    var e := [c] + rest;
    assert e[1..] == rest;
    if |e| >= 2 { assert e[..2][0] == c; }
  }

  lemma EscapedStart(s: string)
    ensures EscapeEach(s) == "" || EscapeEach(s)[0] != '"'
  {
  }

  lemma {:induction false} UnescapeBackslashes(s: string)
    ensures ReplaceAll(HalfEscaped(s), "\\\\", "\\") == s
  {
    if s == "" {
    } else {
      var rest, e := HalfEscaped(s[1..]), HalfEscaped(s);
      UnescapeBackslashes(s[1..]);
      assert s == [s[0]] + s[1..];
      if s[0] == '\\' {
        assert e[..2] == "\\\\" && e[2..] == rest;
      } else {
        assert e[1..] == rest;
        if |e| >= 2 { assert e[..2][0] == s[0]; }
      }
    }
  }

  /** unescapePGN undoes escapePGN on every string. */
  lemma UnescapeEscape(s: string)
    ensures Unescape(Escape(s)) == s
  {
    EscapeIsEach(s);
    UnescapeQuotes(s);
    UnescapeBackslashes(s);
  }

  // ---------- tag lines ----------

  predicate IsKeyChar(c: char) {
    'A' <= c <= 'Z' || 'a' <= c <= 'z' || IsDigit(c) || c == '_'
  }

  predicate IsKey(s: string) {
    s != "" && forall i :: 0 <= i < |s| ==> IsKeyChar(s[i])
  }

  function KeyLength(s: string): (k: nat)
    ensures k <= |s|
  {
    if s == "" || !IsKeyChar(s[0]) then 0 else 1 + KeyLength(s[1..])
  }

  /** The extent of (?:[^"\\]|\\.)* at the start of s. */
  function BodyLength(s: string): (k: nat)
    ensures k <= |s|
  {
    if s == "" || s[0] == '"' then 0
    else if s[0] != '\\' then 1 + BodyLength(s[1..])
    else if |s| >= 2 && s[1] != '\n' then 2 + BodyLength(s[2..])
    else 0
  }

  /** The closing quote, bracket and white space of a tag line. */
  predicate ClosesTag(s: string) {
    && s != "" && s[0] == '"'
    && var t := SkipReSpace(s[1..]);
       t != "" && t[0] == ']' && SkipReSpace(t[1..]) == ""
  }

  /** The still escaped value of a text of the form "Value"]. */
  function MatchValue(c: string): Option<string> {
    if c == "" || c[0] != '"' then None
    else
      var n := BodyLength(c[1..]);
      if ClosesTag(c[1..][n..]) then Some(c[1..][..n]) else None
  }

  /** The key and the still escaped value of a text of the form Key "Value"]. */
  function MatchPair(b: string): Option<(string, string)> {
    var k := KeyLength(b);
    var c := SkipReSpace(b[k..]);
    if k == 0 || c == b[k..] then None
    else match MatchValue(c)
      case None => None
      case Some(val) => Some((b[..k], val))
  }

  /** reTagPair: a line of the form [Key "Value"]. */
  function MatchTag(line: string): Option<(string, string)> {
    var a := SkipReSpace(line);
    if a == "" || a[0] != '[' then None else MatchPair(SkipReSpace(a[1..]))
  }

  function TagLine(key: string, val: string): string {
    "[" + key + " \"" + Escape(val) + "\"]"
  }

  lemma {:induction false} KeyLengthOf(key: string, rest: string)
    requires (forall i :: 0 <= i < |key| ==> IsKeyChar(key[i])) && (rest == "" || !IsKeyChar(rest[0]))
    ensures KeyLength(key + rest) == |key|
  {
    if key == "" {
      assert key + rest == rest;
    } else {
      assert (key + rest)[1..] == key[1..] + rest;
      KeyLengthOf(key[1..], rest);
    }
  }

  lemma {:induction false} BodyLengthOf(val: string, rest: string)
    requires Lacks(val, '\n') && rest != "" && rest[0] == '"'
    ensures BodyLength(EscapeEach(val) + rest) == |EscapeEach(val)|
  {
    var s := EscapeEach(val) + rest;
    if val == "" {
      assert s == rest;
    } else {
      var e := EscapeChar(val[0]);
      assert s == e + (EscapeEach(val[1..]) + rest);
      assert s[|e|..] == EscapeEach(val[1..]) + rest;
      BodyLengthOf(val[1..], rest);
      assert s[0] == e[0];
      if |e| == 2 { assert s[1] == e[1] != '\n'; }
    }
  }

  lemma ValueMatches(val: string)
    requires Lacks(val, '\n')
    ensures MatchValue("\"" + (Escape(val) + "\"]")) == Some(Escape(val))
  {
    var body := Escape(val);
    EscapeIsEach(val);
    var rest := body + "\"]";
    BodyLengthOf(val, "\"]");
    assert ("\"" + rest)[1..] == rest;
    assert rest[|body|..] == "\"]" && rest[..|body|] == body;
    ClosingTag();
  }

  lemma ClosingTag()
    ensures ClosesTag("\"]")
  {
    var s, t := "\"]", "]";
    assert s[1..] == t && SkipReSpace(t) == t;
    assert t[1..] == "" && SkipReSpace("") == "";
  }

  lemma PairMatches(key: string, val: string)
    requires IsKey(key) && Lacks(val, '\n')
    ensures MatchPair(key + (" " + ("\"" + (Escape(val) + "\"]")))) == Some((key, Escape(val)))
  {
    var c := "\"" + (Escape(val) + "\"]");
    var b := key + (" " + c);
    KeyLengthOf(key, " " + c);
    assert b[|key|..] == " " + c && b[..|key|] == key;
    var gap := " " + c;
    assert gap[1..] == c && c[0] == '"' && SkipReSpace(c) == c && SkipReSpace(gap) == c;
    assert |gap| == |c| + 1 && c != gap;
    ValueMatches(val);
  }

  /** A written tag line is recognised, with its key and value. */
  lemma TagLineMatches(key: string, val: string)
    requires IsKey(key) && Lacks(val, '\n')
    ensures MatchTag(TagLine(key, val)) == Some((key, Escape(val)))
  {
    var b := key + (" " + ("\"" + (Escape(val) + "\"]")));
    TagText(key, Escape(val));
    assert IsKeyChar(b[0]) by { assert b[0] == key[0]; }
    BracketMatches(b);
    PairMatches(key, val);
  }

  lemma TagText(key: string, escaped: string)
    ensures "[" + key + " \"" + escaped + "\"]" == "[" + (key + (" " + ("\"" + (escaped + "\"]"))))
  {
  }

  lemma BracketMatches(b: string)
    requires b != "" && IsKeyChar(b[0])
    ensures MatchTag("[" + b) == MatchPair(b)
  {
    assert ("[" + b)[1..] == b;
  }

  // ---------- results ----------

  function Lower(s: string): string {
    if s == "" then "" else [if 'A' <= s[0] <= 'Z' then (s[0] as int + 32) as char else s[0]] + Lower(s[1..])
  }

  /** The two bytes of the one-half sign. */
  const HALF: string := ['\U{C2}', '\U{BD}']

  const WIN_WORDS: seq<string> := ["1-0", "1:0", "1 - 0", "1 0", "white", "white wins", "1"]
  const LOSS_WORDS: seq<string> := ["0-1", "0:1", "0 - 1", "0 1", "black", "black wins"]
  const DRAW_WORDS: seq<string> :=
    ["1/2-1/2", "1/2", "1/2 1/2", HALF + "-" + HALF, HALF, "0.5-0.5", "0.5", "draw", "drawn", "remis", "patt",
     "stalemate", "=", HALF + "-" + HALF + " ", "1/2 - 1/2"]
  const OPEN_WORDS: seq<string> := ["*", "ongoing", "unknown", "open", "?", "in progress"]

  predicate Contains(s: string, part: string) {
    part <= s || (s != "" && Contains(s[1..], part))
  }

  /** The text that results are told apart by. */
  function ResultKey(s: string): string {
    Join(Fields(Lower(Trim(s))), " ")
  }

  function ResultOf(lower: string): (r: string)
    ensures Movetext.IsResult(r)
  {
    if lower in WIN_WORDS then "1-0"
    else if lower in LOSS_WORDS then "0-1"
    else if lower in DRAW_WORDS then "1/2-1/2"
    else if lower in OPEN_WORDS then "*"
    else if Contains(lower, HALF) || Contains(lower, "1/2") || Contains(lower, "remis")
            || Contains(lower, "draw") then "1/2-1/2"
    else if "1-0" <= lower then "1-0"
    else if "0-1" <= lower then "0-1"
    else "*"
  }

  function NormalizeResult(s: string): (r: string)
    ensures Movetext.IsResult(r)
  {
    if Trim(s) == "" then "*" else ResultOf(ResultKey(s))
  }

  lemma {:induction false} LowerSettled(s: string)
    ensures Lower(Lower(s)) == Lower(s) && |Lower(s)| == |s|
  {
    if s == "" {
    } else {
      LowerSettled(s[1..]);
      assert Lower(s)[1..] == Lower(s[1..]);
    }
  }

  lemma {:induction false} LowerSnoc(s: string, c: char)
    ensures Lower(s + [c]) == Lower(s) + Lower([c])
  {
    if s == "" {
      assert s + [c] == [c];
    } else {
      assert (s + [c])[1..] == s[1..] + [c];
      LowerSnoc(s[1..], c);
    }
  }

  lemma {:induction false} LowerTrimLeft(s: string)
    ensures TrimLeft(Lower(s)) == Lower(TrimLeft(s))
  {
    if s == "" {
    } else {
      assert Lower(s)[1..] == Lower(s[1..]);
      LowerTrimLeft(s[1..]);
    }
  }

  lemma {:induction false} LowerTrimRight(s: string)
    ensures TrimRight(Lower(s)) == Lower(TrimRight(s))
  {
    if s == "" {
    } else {
      LowerLast(s);
      LowerTrimRight(s[..|s| - 1]);
    }
  }

  lemma LowerLast(s: string)
    requires s != ""
    ensures |Lower(s)| == |s| && Lower(s)[..|s| - 1] == Lower(s[..|s| - 1])
    ensures IsSpace(Lower(s)[|s| - 1]) <==> IsSpace(s[|s| - 1])
  {
    var init, c := s[..|s| - 1], s[|s| - 1];
    assert s == init + [c];
    LowerSnoc(init, c);
    LowerSettled(s);
    LowerSettled(init);
    assert Lower(s)[|s| - 1] == Lower([c])[0];
  }

  /** A result is read regardless of letter case and surrounding white space, and a result token as
      itself. */
  lemma ResultSpellings(s: string)
    ensures NormalizeResult(Lower(s)) == NormalizeResult(s)
    ensures NormalizeResult(Trim(s)) == NormalizeResult(s)
    ensures NormalizeResult(s) == s <==> Movetext.IsResult(s)
  {
    KeySpellings(s);
    if Movetext.IsResult(s) {
      TokenKey(s);
      TokenResults();
    }
  }

  lemma KeySpellings(s: string)
    ensures Trim(Lower(s)) == Lower(Trim(s)) && Trim(Trim(s)) == Trim(s)
    ensures ResultKey(Lower(s)) == ResultKey(s) && ResultKey(Trim(s)) == ResultKey(s)
    ensures Trim(Lower(s)) == "" <==> Trim(s) == ""
  {
    LowerTrimLeft(s);
    LowerTrimRight(TrimLeft(s));
    LowerSettled(Trim(s));
    TrimIdempotent(s);
  }

  lemma TokenKey(s: string)
    requires Movetext.IsResult(s)
    ensures Trim(s) == s && s != "" && ResultKey(s) == s
  {
    TrimSolid(s);
    PlainLower(s);
    assert NoSpace(s);
    FieldsCons(s, "");
    assert Join([s], " ") == s;
  }

  lemma TokenResults()
    ensures ResultOf("1-0") == "1-0" && ResultOf("0-1") == "0-1" && ResultOf("*") == "*"
    ensures ResultOf("1/2-1/2") == "1/2-1/2"
  {
    LossResult();
    DrawResult();
    OpenResult();
    assert WIN_WORDS[0] == "1-0";
  }

  lemma LossResult()
    ensures ResultOf("0-1") == "0-1"
  {
    assert LOSS_WORDS[0] == "0-1";
    assert forall w :: w in WIN_WORDS ==> w[0] != '0';
  }

  lemma DrawResult()
    ensures ResultOf("1/2-1/2") == "1/2-1/2"
  {
    var s := "1/2-1/2";
    assert forall w :: w in WIN_WORDS ==> |w| != 7;
    assert forall w :: w in LOSS_WORDS ==> |w| != 7;
    assert DRAW_WORDS[0] == s;
  }

  lemma OpenResult()
    ensures ResultOf("*") == "*"
  {
    var s := "*";
    assert forall w :: w in WIN_WORDS ==> w[0] != '*';
    assert forall w :: w in LOSS_WORDS ==> w[0] != '*';
    assert forall w :: w in DRAW_WORDS ==> w[0] != '*';
    assert OPEN_WORDS[0] == s;
  }

  lemma {:induction false} PlainLower(s: string)
    requires forall i :: 0 <= i < |s| ==> !('A' <= s[i] <= 'Z')
    ensures Lower(s) == s
  {
    if s == "" {
    } else {
      PlainLower(s[1..]);
      assert s == [s[0]] + s[1..];
    }
  }

  // ---------- headers ----------

  datatype Header = Header(
    event: string, site: string, date: string, round: string,
    white: string, black: string, board: string, result: string,
    extra: map<string, string>)

  const ROSTER: seq<string> := ["Event", "Site", "Date", "Round", "White", "Black", "Result"]

  function DefaultTag(key: string): string {
    if key == "Date" then "????.??.??" else if key == "Result" then "*" else "?"
  }

  /** The header of a chunk before its tags are read. */
  function NoTags(): Header {
    Header("", "", "", "", "", "", "", "*", map[])
  }

  function ApplyTag(h: Header, key: string, val: string): Header {
    if key == "Event" then h.(event := val)
    else if key == "Site" then h.(site := val)
    else if key == "Date" then h.(date := val)
    else if key == "Round" then h.(round := val)
    else if key == "White" then h.(white := val)
    else if key == "Black" then h.(black := val)
    else if key == "Board" then h.(board := val)
    else if key == "Result" then h.(result := NormalizeResult(val))
    else h.(extra := h.extra[key := val])
  }

  /** The start position a header asks for. */
  function StartFen(h: Header): string {
    if "FEN" in h.extra && Trim(h.extra["FEN"]) != "" then Trim(h.extra["FEN"]) else SanMoves.STARTING_FEN
  }
}
