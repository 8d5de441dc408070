/** The movetext of a PGN game: scanning it into move tokens, and writing it with move numbers,
    clock comments and line wrapping (chesskit/pgn.go; PGN sections 5, 8.2.1 to 8.2.6). */
module Movetext {
  import opened Text

  datatype Move = Move(san: string, fromFen: string, toFen: string, clock: Option<int>)

  datatype Token = Token(san: string, comment: string)

  /** The tokens found so far and the last result token, "" when there was none. */
  datatype Scan = Scan(toks: seq<Token>, result: string)

  predicate IsResult(s: string) {
    s == "1-0" || s == "0-1" || s == "1/2-1/2" || s == "*"
  }

  // ---------- words ----------

  predicate IsBlank(c: char) { c == ' ' || c == '\t' || c == '\n' || c == '\r' }

  predicate EndsWord(c: char) { IsBlank(c) || c == '{' || c == '(' || c == ';' }

  function WordEnd(s: string): (k: nat)
    ensures k <= |s|
    ensures forall i :: 0 <= i < k ==> !EndsWord(s[i])
    ensures k < |s| ==> EndsWord(s[k])
  {
    if s == "" || EndsWord(s[0]) then 0 else 1 + WordEnd(s[1..])
  }

  function CountDigits(s: string): (k: nat)
    ensures k <= |s|
    ensures AllDigits(s[..k])
    ensures k < |s| ==> !IsDigit(s[k])
  {
    if s == "" || !IsDigit(s[0]) then 0 else 1 + CountDigits(s[1..])
  }

  function CountDots(s: string): (k: nat)
    ensures k <= |s|
    ensures forall i :: 0 <= i < k ==> s[i] == '.'
    ensures k < |s| ==> s[k] != '.'
  {
    if s == "" || s[0] != '.' then 0 else 1 + CountDots(s[1..])
  }

  /** The word without a leading move number; "" when nothing but dots remains. */
  function StripMoveNumber(word: string): string {
    var k := CountDigits(word);
    var w := Trim(if k == 0 then word else word[k + CountDots(word[k..])..]);
    if CountDots(w) == |w| then "" else w
  }

  method StripNumber(word: string) returns (w: string)
    ensures w == StripMoveNumber(word)
  {
    var k := SkipDigits(word, 0);
    assert word[0..] == word;
    w := word;
    if k > 0 {
      k := SkipDots(w, k);
      w := w[k..];
    }
    w := Trim(w);
    if CountDots(w) == |w| { return ""; }
  }

  method SkipDots(w: string, start: nat) returns (k: nat)
    requires start <= |w|
    ensures k == start + CountDots(w[start..])
  {
    k := start;
    while k < |w| && w[k] == '.'
      invariant start <= k <= |w|
      invariant CountDots(w[start..]) == (k - start) + CountDots(w[k..])
    {
      assert w[k..][1..] == w[k + 1..];
      k := k + 1;
    }
  }

  // ---------- scanning ----------

  /** The length of a parenthesised variation, up to where its depth returns to zero. */
  function VariationLength(s: string, depth: int): (k: nat)
    ensures k <= |s|
  {
    if s == "" then 0
    else if s[0] == '(' then 1 + VariationLength(s[1..], depth + 1)
    else if s[0] == ')' then (if depth == 1 then 1 else 1 + VariationLength(s[1..], depth - 1))
    else 1 + VariationLength(s[1..], depth)
  }

  /** A comment belongs to the last move token; without one it is dropped. */
  function AddComment(st: Scan, body: string): Scan {
    if st.toks == [] then st
    else
      var t := st.toks[|st.toks| - 1];
      var joined := (if t.comment == "" then "" else t.comment + " ") + Trim(body);
      st.(toks := st.toks[..|st.toks| - 1] + [t.(comment := joined)])
  }

  function AddWord(st: Scan, word: string): Scan {
    var w := Trim(word);
    if w == "" then st
    else if IsResult(w) then st.(result := w)
    else
      var san := StripMoveNumber(w);
      if san == "" then st else st.(toks := st.toks + [Token(san, "")])
  }

  /** How much of s the next round of the scanner consumes. */
  function StepLength(s: string): (k: nat)
    requires s != ""
    ensures 0 < k <= |s|
  {
    if IsBlank(s[0]) then 1
    else if s[0] == '{' then (if IndexOf(s, '}') < 0 then |s| else IndexOf(s, '}') + 1)
    else if s[0] == ';' then (if IndexOf(s, '\n') < 0 then |s| else IndexOf(s, '\n') + 1)
    else if s[0] == '(' then VariationLength(s, 0)
    else if s[0] == '$' then 1 + CountDigits(s[1..])
    else WordEnd(s)
  }

  /** What the next round of the scanner records. */
  function StepEffect(s: string, st: Scan): Scan
    requires s != ""
  {
    if IsBlank(s[0]) || s[0] == ';' || s[0] == '(' || s[0] == '$' then st
    else if s[0] == '{' then
      var e := IndexOf(s, '}');
      AddComment(st, if e < 0 then s[1..] else s[1..e])
    else AddWord(st, s[..WordEnd(s)])
  }

  /** The effect of scanning the rest s of a movetext. */
  function ScanFrom(s: string, st: Scan): Scan
    decreases |s|
  {
    if s == "" then st else ScanFrom(s[StepLength(s)..], StepEffect(s, st))
  }

  function Tokenize(text: string): Scan {
    ScanFrom(text, Scan([], ""))
  }

  lemma ScanOneStep(text: string, i: nat, j: nat, st: Scan, st': Scan)
    requires i < |text| && j == i + StepLength(text[i..]) && st' == StepEffect(text[i..], st)
    ensures j <= |text| && ScanFrom(text[j..], st') == ScanFrom(text[i..], st)
  {
    assert text[i..][StepLength(text[i..])..] == text[j..];
  }

  method TokenizeMovetext(text: string) returns (toks: seq<Token>, result: string)
    ensures Scan(toks, result) == Tokenize(text)
  {
    toks, result := [], "";
    var i, n := 0, |text|;
    assert text[0..] == text;
    while i < n
      invariant 0 <= i <= n
      invariant ScanFrom(text[i..], Scan(toks, result)) == Tokenize(text)
    {
      ghost var i0, st0 := i, Scan(toks, result);
      var c := text[i];
      if IsBlank(c) {
        i := i + 1;
      } else if c == '{' {
        i, toks := ReadComment(text, i, toks, result);
      } else if c == ';' {
        var end := IndexOf(text[i..], '\n');
        if end < 0 { i := n; } else { i := i + end + 1; }
      } else if c == '(' {
        i := SkipVariation(text, i);
      } else if c == '$' {
        assert text[i..][1..] == text[i + 1..];
        i := SkipDigits(text, i + 1);
      } else {
        var j := FindWordEnd(text, i);
        assert text[i..][..WordEnd(text[i..])] == text[i..j];
        toks, result := ReadWord(text[i..j], toks, result);
        i := j;
      }
      ScanOneStep(text, i0, i, st0, Scan(toks, result));
    }
    assert text[n..] == "";
  }

  /** The comment branch: attach the body to the most recent move token. */
  method ReadComment(text: string, start: nat, toks: seq<Token>, ghost result: string)
    returns (i: nat, toks': seq<Token>)
    requires start < |text| && text[start] == '{'
    ensures i == start + StepLength(text[start..])
    ensures Scan(toks', result) == StepEffect(text[start..], Scan(toks, result))
  {
    var end := IndexOf(text[start..], '}');
    var body;
    if end < 0 {
      body := text[start + 1..];
      assert body == text[start..][1..];
      i := |text|;
    } else {
      body := text[start + 1..start + end];
      assert body == text[start..][1..end];
      i := start + end + 1;
    }
    toks' := toks;
    if |toks| > 0 {
      var last := toks[|toks| - 1];
      if last.comment != "" { last := last.(comment := last.comment + " "); }
      last := last.(comment := last.comment + Trim(body));
      toks' := toks[|toks| - 1 := last];
      assert toks' == toks[..|toks| - 1] + [last];
    }
  }

  /** The word branch: a result token, a move number or a move. */
  method ReadWord(word: string, toks: seq<Token>, result: string)
    returns (toks': seq<Token>, result': string)
    ensures Scan(toks', result') == AddWord(Scan(toks, result), word)
  {
    toks', result' := toks, result;
    var w := Trim(word);
    if w == "" { return; }
    if IsResult(w) { result' := w; return; }
    var san := StripNumber(w);
    if san == "" { return; }
    toks' := toks + [Token(san, "")];
  }

  /** The inner loop over a variation. */
  method SkipVariation(text: string, start: nat) returns (i: nat)
    requires start < |text| && text[start] == '('
    ensures start < i <= |text|
    ensures i == start + VariationLength(text[start..], 0)
  {
    i := start;
    var depth := 0;
    ghost var whole := VariationLength(text[start..], 0);
    while i < |text|
      invariant start <= i <= |text|
      invariant whole == (i - start) + VariationLength(text[i..], depth)
    {
      assert text[i..][1..] == text[i + 1..];
      if text[i] == '(' {
        depth := depth + 1;
      } else if text[i] == ')' {
        depth := depth - 1;
        if depth == 0 {
          i := i + 1;
          break;
        }
      }
      i := i + 1;
    }
  }

  method SkipDigits(text: string, start: nat) returns (i: nat)
    requires start <= |text|
    ensures i == start + CountDigits(text[start..])
  {
    i := start;
    while i < |text| && IsDigit(text[i])
      invariant start <= i <= |text|
      invariant CountDigits(text[start..]) == (i - start) + CountDigits(text[i..])
    {
      assert text[i..][1..] == text[i + 1..];
      i := i + 1;
    }
  }

  method FindWordEnd(text: string, start: nat) returns (j: nat)
    requires start < |text| && !EndsWord(text[start])
    ensures j == start + WordEnd(text[start..]) && start < j <= |text|
  {
    j := start;
    while j < |text|
      invariant start <= j <= |text|
      invariant WordEnd(text[start..]) == (j - start) + WordEnd(text[j..])
    {
      assert text[j..][1..] == text[j + 1..];
      if EndsWord(text[j]) { break; }
      j := j + 1;
    }
  }
}
