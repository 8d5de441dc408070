/** The grammar of a movetext, and the proof that the scanner reads exactly that on every text
    (chesskit/pgn.go). */
module MovetextGrammar {
  import opened Text
  import M = Movetext
  import W = MovetextWriter
  import C = MoveComments

  // ---------- elements ----------

  /** What stands in a movetext. The last three are not closed before the text ends. */
  datatype Element =
    | Blank(c: char)
    | Word(word: string)
    | Glyph(digits: string)
    | Comment(body: string)
    | LineComment(body: string)
    | Variation(body: string)
    | OpenComment(body: string)
    | OpenLine(body: string)
    | OpenVariation(body: string)

  function Written(e: Element): string {
    match e
    case Blank(c) => [c]
    case Word(word) => word
    case Glyph(digits) => "$" + digits
    case Comment(body) => "{" + body + "}"
    case LineComment(body) => ";" + body + "\n"
    case Variation(body) => "(" + body + ")"
    case OpenComment(body) => "{" + body
    case OpenLine(body) => ";" + body
    case OpenVariation(body) => "(" + body
  }

  /** The characters that end a word. */
  const STOPS: string := " \t\n\r{(;"

  /** The element can stand before this rest. */
  ghost predicate Fits(e: Element, rest: string) {
    match e
    case Blank(c) => c in " \t\n\r"
    case Word(word) =>
      && word != "" && word[0] != '$' && (forall i :: 0 <= i < |word| ==> word[i] !in STOPS)
      && (rest == "" || rest[0] in STOPS)
    case Glyph(digits) => AllDigits(digits) && (rest == "" || !IsDigit(rest[0]))
    case Comment(body) => Lacks(body, '}')
    case LineComment(body) => Lacks(body, '\n')
    case Variation(body) => C.Balanced(body)
    case OpenComment(body) => rest == "" && Lacks(body, '}')
    case OpenLine(body) => rest == "" && Lacks(body, '\n')
    case OpenVariation(body) => rest == "" && forall j :: 0 <= j <= |body| ==> C.Depth(body[..j]) >= 0
  }

  // ---------- what they mean ----------

  /** A word is a number with its dots, when it starts with a digit, and then a move text. */
  ghost predicate Numbers(word: string, digits: string, dots: string, move: string) {
    && word == digits + (dots + move)
    && AllDigits(digits) && (forall i :: 0 <= i < |dots| ==> dots[i] == '.')
    && (if digits == "" then dots == "" && (move == "" || !IsDigit(move[0]))
        else move == "" || (move[0] != '.' && (dots == "" ==> !IsDigit(move[0]))))
  }

  predicate OnlyDots(s: string) {
    forall i :: 0 <= i < |s| ==> s[i] == '.'
  }

  /** A result token is remembered; anything else is a move once its number is gone, unless nothing but
      dots is left. */
  ghost predicate WordMeans(word: string, st: M.Scan, st': M.Scan) {
    if word == "" then st' == st
    else if word in {"1-0", "0-1", "1/2-1/2", "*"} then st' == M.Scan(st.toks, word)
    else exists digits, dots, move ::
      && Numbers(word, digits, dots, move)
      && st' == if OnlyDots(Trim(move)) then st else M.Scan(st.toks + [M.Token(Trim(move), "")], st.result)
  }

  /** A comment goes to the last move, behind the comment that it has; before the first move it is
      dropped. */
  ghost predicate CommentMeans(body: string, st: M.Scan, st': M.Scan) {
    if st.toks == [] then st' == st
    else
      && |st'.toks| == |st.toks| && st'.result == st.result
      && forall k :: 0 <= k < |st.toks| ==>
           && st'.toks[k].san == st.toks[k].san
           && st'.toks[k].comment
              == if k == |st.toks| - 1 then C.Spaced(st.toks[k].comment, Trim(body)) else st.toks[k].comment
  }

  ghost predicate Means(e: Element, st: M.Scan, st': M.Scan) {
    match e
    case Word(word) => WordMeans(Trim(word), st, st')
    case Comment(body) => CommentMeans(body, st, st')
    case OpenComment(body) => CommentMeans(body, st, st')
    case _ => st' == st
  }

  /** A text is read as these elements, one after the other, and that leads from st to st'. */
  ghost predicate Reading(text: string, es: seq<Element>, st: M.Scan, st': M.Scan)
    decreases |es|
  {
    if es == [] then text == "" && st' == st
    else exists rest, mid :: ReadsFirst(text, es[0], rest, st, mid) && Reading(rest, es[1..], mid, st')
  }

  ghost predicate ReadsFirst(text: string, e: Element, rest: string, st: M.Scan, mid: M.Scan) {
    text == Written(e) + rest && Fits(e, rest) && Means(e, st, mid)
  }

  // ---------- one round of the scanner ----------

  /** The next round consumes s up to rest and goes from st to mid. */
  ghost predicate Round(s: string, rest: string, st: M.Scan, mid: M.Scan) {
    s != "" && s[M.StepLength(s)..] == rest && M.StepEffect(s, st) == mid
  }

  lemma StopChars(c: char)
    ensures c in " \t\n\r" <==> M.IsBlank(c)
    ensures c in STOPS <==> M.EndsWord(c)
  {
    assert STOPS == " \t\n\r{(;";
  }

  lemma CommentRound(body: string, rest: string, st: M.Scan, mid: M.Scan)
    requires Lacks(body, '}') && CommentMeans(body, st, mid)
    ensures Round("{" + body + "}" + rest, rest, st, mid)
    ensures Round("{" + body, "", st, mid)
  {
    var s, e := "{" + body + "}" + rest, |body| + 1;
    assert s[..e] == "{" + body && s[e] == '}';
    IndexOfAt(s, '}', e);
    assert s[1..e] == body && s[e + 1..] == rest;
    assert Lacks("{" + body, '}') && ("{" + body)[1..] == body;
    CommentAdded(body, st, mid);
  }

  lemma CommentAdded(body: string, st: M.Scan, mid: M.Scan)
    ensures CommentMeans(body, st, mid) <==> mid == M.AddComment(st, body)
  {
    var st' := M.AddComment(st, body);
    if st.toks != [] {
      forall k | 0 <= k < |st.toks| { C.CommentJoins(st, body, k); }
      if CommentMeans(body, st, mid) {
        forall k | 0 <= k < |st.toks| ensures mid.toks[k] == st'.toks[k] {}
        assert mid.toks == st'.toks;
      }
    }
  }

  lemma LineRound(body: string, rest: string, st: M.Scan)
    requires Lacks(body, '\n')
    ensures Round(";" + body + "\n" + rest, rest, st, st)
    ensures Round(";" + body, "", st, st)
  {
    var s, e := ";" + body + "\n" + rest, |body| + 1;
    assert s[..e] == ";" + body && s[e] == '\n';
    IndexOfAt(s, '\n', e);
    assert s[e + 1..] == rest;
    assert Lacks(";" + body, '\n');
  }

  lemma VariationRound(v: string, rest: string, st: M.Scan)
    requires C.Balanced(v)
    ensures Round("(" + v + ")" + rest, rest, st, st)
  {
    C.VariationLength(v, rest);
    assert ("(" + v + ")" + rest)[|v| + 2..] == rest;
  }

  lemma OpenVariationRound(v: string, st: M.Scan)
    requires forall j :: 0 <= j <= |v| ==> C.Depth(v[..j]) >= 0
    ensures Round("(" + v, "", st, st)
  {
    var s := "(" + v;
    C.VariationEnds(s, 0);
    forall j | 0 < j <= |s| ensures !C.ClosesAt(s, 0, j) {
      assert s[..j] == "(" + v[..j - 1];
      C.DepthAppend("(", v[..j - 1]);
      assert "("[..0] == "";
    }
  }

  lemma GlyphRound(digits: string, rest: string, st: M.Scan)
    requires AllDigits(digits) && (rest == "" || !IsDigit(rest[0]))
    ensures Round("$" + digits + rest, rest, st, st)
  {
    var s := "$" + digits + rest;
    assert s[1..] == digits + rest;
    W.CountDigitsOf(digits, rest);
    assert s[1 + |digits|..] == rest;
  }

  // ---------- words ----------

  lemma WordRound(word: string, rest: string, st: M.Scan, mid: M.Scan)
    requires Fits(Word(word), rest) && WordMeans(Trim(word), st, mid)
    ensures Round(word + rest, rest, st, mid)
  {
    forall i | 0 <= i < |word| ensures !M.EndsWord(word[i]) { StopChars(word[i]); }
    if rest != "" { StopChars(rest[0]); }
    W.WordEndOf(word, rest);
    var s := word + rest;
    assert s[0] == word[0] && s[..|word|] == word && s[|word|..] == rest;
    WordAdded(word, st, mid);
  }

  lemma WordAdded(word: string, st: M.Scan, mid: M.Scan)
    ensures WordMeans(Trim(word), st, mid) <==> mid == M.AddWord(st, word)
  {
    var w := Trim(word);
    if w != "" && !M.IsResult(w) {
      if mid == M.AddWord(st, word) {
        var digits, dots, move := NumberOf(w);
        Stripped(w, digits, dots, move);
      }
      if WordMeans(w, st, mid) {
        var digits, dots, move :| Numbers(w, digits, dots, move)
          && mid == if OnlyDots(Trim(move)) then st else M.Scan(st.toks + [M.Token(Trim(move), "")], st.result);
        Stripped(w, digits, dots, move);
      }
    }
  }

  lemma Stripped(word: string, digits: string, dots: string, move: string)
    requires Numbers(word, digits, dots, move)
    ensures M.StripMoveNumber(word) == if OnlyDots(Trim(move)) then "" else Trim(move)
  {
    W.CountDigitsOf(digits, dots + move);
    assert word[|digits|..] == dots + move;
    CountDotsOf(dots, move);
    assert word[|digits| + |dots|..] == move;
    DotsCounted(Trim(move));
  }

  lemma {:induction false} CountDotsOf(dots: string, rest: string)
    requires OnlyDots(dots) && (rest == "" || rest[0] != '.' || dots == "")
    ensures dots != "" || rest == "" || rest[0] != '.' ==> M.CountDots(dots + rest) == |dots|
  {
    if dots == "" {
      assert dots + rest == rest;
    } else {
      assert (dots + rest)[1..] == dots[1..] + rest;
      if |dots| > 1 { CountDotsOf(dots[1..], rest); } else { assert dots[1..] + rest == rest; }
    }
  }

  lemma DotsCounted(s: string)
    ensures M.CountDots(s) == |s| <==> OnlyDots(s)
  {
  }

  lemma NumberOf(word: string) returns (digits: string, dots: string, move: string)
    ensures Numbers(word, digits, dots, move)
  {
    var k := M.CountDigits(word);
    digits := word[..k];
    var n := if k == 0 then 0 else M.CountDots(word[k..]);
    dots, move := word[k..][..n], word[k..][n..];
    assert word == word[..k] + word[k..] && word[k..] == dots + move;
  }

  // ---------- the scanner reads the grammar ----------

  lemma ElementRound(text: string, e: Element, rest: string, st: M.Scan, mid: M.Scan)
    requires ReadsFirst(text, e, rest, st, mid)
    ensures Round(text, rest, st, mid)
  {
    match e
    case Blank(c) => StopChars(c); assert text[1..] == rest;
    case Word(word) => WordRound(word, rest, st, mid);
    case Glyph(digits) => GlyphRound(digits, rest, st);
    case Comment(body) => CommentRound(body, rest, st, mid);
    case LineComment(body) => LineRound(body, rest, st);
    case Variation(body) => VariationRound(body, rest, st);
    case OpenComment(body) => CommentRound(body, rest, st, mid); assert text == "{" + body;
    case OpenLine(body) => LineRound(body, rest, st); assert text == ";" + body;
    case OpenVariation(body) => OpenVariationRound(body, st); assert text == "(" + body;
  }

  /** The element at the start of a text. */
  lemma FirstElement(text: string, st: M.Scan) returns (e: Element, rest: string)
    requires text != ""
    ensures ReadsFirst(text, e, rest, st, M.StepEffect(text, st)) && |rest| < |text|
  {
    StopChars(text[0]);
    var c := text[0];
    if M.IsBlank(c) {
      e, rest := Blank(c), text[1..];
    } else if c == '{' {
      e, rest := FirstComment(text);
      CommentAdded(e.body, st, M.StepEffect(text, st));
    } else if c == ';' {
      e, rest := FirstLine(text);
    } else if c == '(' {
      e, rest := FirstVariation(text);
    } else if c == '$' {
      var k := M.CountDigits(text[1..]);
      e, rest := Glyph(text[1..][..k]), text[1..][k..];
    } else {
      e, rest := FirstWord(text, st);
    }
  }

  /** Between the first character and the first c. */
  lemma CutInside(text: string, c: char)
    requires text != "" && text[0] != c && IndexOf(text, c) >= 0
    ensures 0 < IndexOf(text, c) && Lacks(text[1..IndexOf(text, c)], c)
    ensures text == [text[0]] + text[1..IndexOf(text, c)] + [c] + text[IndexOf(text, c) + 1..]
  {
    var i := IndexOf(text, c);
    forall j | 0 <= j < |text[1..i]| ensures text[1..i][j] != c { assert text[..i][j + 1] != c; }
  }

  lemma FirstComment(text: string) returns (e: Element, rest: string)
    requires text != "" && text[0] == '{'
    ensures text == Written(e) + rest && Fits(e, rest) && (e.Comment? || e.OpenComment?) && |rest| < |text|
    ensures e.body == if IndexOf(text, '}') < 0 then text[1..] else text[1..IndexOf(text, '}')]
  {
    var i := IndexOf(text, '}');
    if i < 0 {
      e, rest := OpenComment(text[1..]), "";
    } else {
      CutInside(text, '}');
      e, rest := Comment(text[1..i]), text[i + 1..];
    }
  }

  lemma FirstLine(text: string) returns (e: Element, rest: string)
    requires text != "" && text[0] == ';'
    ensures text == Written(e) + rest && Fits(e, rest) && (e.LineComment? || e.OpenLine?) && |rest| < |text|
  {
    var i := IndexOf(text, '\n');
    if i < 0 {
      e, rest := OpenLine(text[1..]), "";
    } else {
      CutInside(text, '\n');
      e, rest := LineComment(text[1..i]), text[i + 1..];
    }
  }

  lemma FirstWord(text: string, st: M.Scan) returns (e: Element, rest: string)
    requires text != "" && !M.EndsWord(text[0]) && text[0] != '$'
    ensures ReadsFirst(text, e, rest, st, M.StepEffect(text, st)) && |rest| < |text|
  {
    var k := M.WordEnd(text);
    e, rest := Word(text[..k]), text[k..];
    forall i | 0 <= i < k ensures text[..k][i] !in STOPS { StopChars(text[i]); }
    if k < |text| { StopChars(text[k]); }
    assert text[..k][0] == text[0];
    WordAdded(text[..k], st, M.StepEffect(text, st));
  }

  lemma FirstVariation(text: string) returns (e: Element, rest: string)
    requires text != "" && text[0] == '('
    ensures text == Written(e) + rest && Fits(e, rest) && (e.Variation? || e.OpenVariation?) && |rest| < |text|
  {
    var k := M.VariationLength(text, 0);
    C.VariationEnds(text, 0);
    forall j | 0 < j <= |text| ensures C.Depth(text[..j]) == 1 + C.Depth(text[1..j]) { OpenDepth(text, j); }
    if k > 0 && C.ClosesAt(text, 0, k) {
      e, rest := Variation(text[1..k - 1]), text[k..];
      Closed(text, k);
    } else {
      e, rest := OpenVariation(text[1..]), "";
      StaysOpen(text, |text|);
      assert text[1..|text|] == text[1..];
      forall j | 0 <= j <= |text[1..]| ensures C.Depth(text[1..][..j]) >= 0 { assert text[1..][..j] == text[1..j + 1]; }
    }
  }

  lemma OpenDepth(text: string, j: nat)
    requires 0 < j <= |text| && text[0] == '('
    ensures C.Depth(text[..j]) == 1 + C.Depth(text[1..j])
  {
    assert text[..j] == "(" + text[1..j];
    C.DepthAppend("(", text[1..j]);
    assert "("[..0] == "";
  }

  /** The depth moves by at most one, so where it is never zero it stays positive. */
  lemma {:induction false} StaysOpen(text: string, n: nat)
    requires text != "" && text[0] == '(' && 0 < n <= |text|
    requires forall j :: 0 < j < n ==> !C.ClosesAt(text, 0, j)
    ensures forall j :: 0 < j < n ==> C.Depth(text[..j]) >= 1
    ensures C.Depth(text[..n]) >= 0
    decreases n
  {
    if n == 1 {
      OpenDepth(text, 1);
      assert text[1..1] == "";
    } else {
      StaysOpen(text, n - 1);
      assert !C.ClosesAt(text, 0, n - 1);
      assert text[..n][..n - 1] == text[..n - 1];
    }
  }

  lemma Closed(text: string, k: nat)
    requires text != "" && text[0] == '(' && 0 < k <= |text| && C.ClosesAt(text, 0, k)
    requires forall j :: 0 < j < k ==> !C.ClosesAt(text, 0, j)
    ensures 2 <= k && text[k - 1] == ')' && C.Balanced(text[1..k - 1])
    ensures text == "(" + text[1..k - 1] + ")" + text[k..]
  {
    StaysOpen(text, k);
    OpenDepth(text, k);
    assert text[1..1] == "";
    assert text[..k][..k - 1] == text[..k - 1];
    OpenDepth(text, k - 1);
    var v := text[1..k - 1];
    forall j | 0 <= j <= |v| ensures C.Depth(v[..j]) >= 0 {
      assert v[..j] == text[1..j + 1];
      OpenDepth(text, j + 1);
    }
    assert v[..|v|] == v;
  }

  /** Some elements of the grammar lead from st to st'. */
  ghost predicate Reads(text: string, st: M.Scan, st': M.Scan) {
    exists es :: Reading(text, es, st, st')
  }

  /** On every text the scanner gives exactly what the grammar reads. */
  lemma ScanExactly(text: string, st: M.Scan, st': M.Scan)
    ensures M.ScanFrom(text, st) == st' <==> Reads(text, st, st')
  {
    if Reads(text, st, st') { ReadsScan(text, st, st'); }
    var es := ScanReads(text, st);
    assert Reads(text, st, M.ScanFrom(text, st));
  }

  lemma ReadsScan(text: string, st: M.Scan, st': M.Scan)
    requires Reads(text, st, st')
    ensures M.ScanFrom(text, st) == st'
  {
    var es :| Reading(text, es, st, st');
    ReadingScans(text, es, st, st');
  }

  lemma {:induction false} ReadingScans(text: string, es: seq<Element>, st: M.Scan, st': M.Scan)
    requires Reading(text, es, st, st')
    ensures M.ScanFrom(text, st) == st'
    decreases |es|
  {
    if es == [] {
    } else {
      var rest, mid :| ReadsFirst(text, es[0], rest, st, mid) && Reading(rest, es[1..], mid, st');
      ElementRound(text, es[0], rest, st, mid);
      ReadingScans(rest, es[1..], mid, st');
    }
  }

  lemma {:induction false} ScanReads(text: string, st: M.Scan) returns (es: seq<Element>)
    ensures Reading(text, es, st, M.ScanFrom(text, st))
    decreases |text|
  {
    if text == "" {
      es := [];
    } else {
      var e, rest := FirstElement(text, st);
      var mid := M.StepEffect(text, st);
      ElementRound(text, e, rest, st, mid);
      var more := ScanReads(rest, mid);
      es := [e] + more;
      assert es[1..] == more;
    }
  }
}
