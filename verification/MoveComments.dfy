/** Comments and variations in a movetext that another program wrote
    (chesskit/pgn.go): comments stay with their move, variations leave no trace. */
module MoveComments {
  import opened Text
  import opened ChessRules
  import opened SanMoves
  import Clock
  import M = Movetext
  import P = PgnParser
  import T = PgnRoundTrip
  import W = MovetextWriter

  // ---------- comments ----------

  /** A comment without its braces. */
  predicate IsBody(body: string) {
    Lacks(body, '}')
  }

  function Braced(body: string): string {
    "{" + body + "}"
  }

  lemma ScanComment(body: string, rest: string, st: M.Scan)
    requires IsBody(body)
    ensures M.ScanFrom(Braced(body) + rest, st) == M.ScanFrom(rest, M.AddComment(st, body))
  {
    var s, e := Braced(body) + rest, |body| + 1;
    assert s[..e] == "{" + body && s[e] == '}';
    IndexOfAt(s, '}', e);
    assert s[1..e] == body && s[e + 1..] == rest;
  }

  lemma ScanBlank(rest: string, st: M.Scan)
    ensures M.ScanFrom(" " + rest, st) == M.ScanFrom(rest, st)
  {
    assert (" " + rest)[1..] == rest;
  }

  /** Two texts with a space between them, where both are there. */
  function Spaced(a: string, b: string): string {
    if a == "" then b else a + " " + b
  }

  /** A comment goes to the last move, behind what that move already carries; no other move, and no
      result, changes. */
  lemma CommentJoins(st: M.Scan, body: string, k: nat)
    requires k < |st.toks|
    ensures var st' := M.AddComment(st, body);
      && |st'.toks| == |st.toks| && st'.result == st.result && st'.toks[k].san == st.toks[k].san
      && st'.toks[k].comment
         == if k == |st.toks| - 1 then Spaced(st.toks[k].comment, Trim(body)) else st.toks[k].comment
  {
  }

  /** A move with two comments behind it, in any text. */
  lemma BothCommentsStay(san: string, a: string, b: string, rest: string, st: M.Scan)
    requires W.WordSafe(san) && IsBody(a) && IsBody(b)
    ensures M.ScanFrom(san + (" " + (Braced(a) + (" " + (Braced(b) + rest)))), st)
      == M.ScanFrom(rest, W.Plus(st, [M.Token(san, Spaced(Trim(a), Trim(b)))]))
  {
    var st1 := W.Plus(st, [M.Token(san, "")]);
    var st2 := W.Plus(st, [M.Token(san, Trim(a))]);
    var tail := Braced(b) + rest;
    W.SafeWordEffect(san, st);
    W.ScanPart(san, " " + (Braced(a) + (" " + tail)), st);
    ScanBlank(Braced(a) + (" " + tail), st1);
    ScanComment(a, " " + tail, st1);
    LastComment(st, san, "", a);
    ScanBlank(tail, st2);
    ScanComment(b, rest, st2);
    LastComment(st, san, Trim(a), b);
  }

  lemma LastComment(st: M.Scan, san: string, before: string, body: string)
    ensures M.AddComment(W.Plus(st, [M.Token(san, before)]), body)
      == W.Plus(st, [M.Token(san, Spaced(before, Trim(body)))])
  {
    var toks := st.toks + [M.Token(san, before)];
    assert toks[..|toks| - 1] == st.toks && "" + Trim(body) == Trim(body);
    assert before + " " + Trim(body) == (before + " ") + Trim(body);
  }

  /** A move and a comment that holds a clock among other text. */
  function ClockedMove(san: string, before: string, sec: int, after: string): string {
    san + " " + Braced(before + ("[%clk " + Clock.FormatClock(sec) + "]" + after))
  }

  /** A clock is read from a comment that begins and ends with other text. */
  lemma ClockedMoveRead(
    r: Rules, p: Position, san: string, before: string, sec: int, after: string)
    requires W.WordSafe(san) && Resolve(r, p, san).Ok? && sec <= MAX_INT64
    requires Solid(before) && Solid(after) && IsBody(before) && IsBody(after) && !Occurs(before, "[%clk")
    ensures var moves := P.PlayTokens(r, p, M.Tokenize(ClockedMove(san, before, sec, after)).toks);
      |moves| == 1 && moves[0].san == Resolve(r, p, san).value.1 && moves[0].clock == Some(if sec < 0 then 0 else sec)
  {
    var body := before + ("[%clk " + Clock.FormatClock(sec) + "]" + after);
    ClockedScan(san, before, sec, after);
    Clock.ClockAmidText(before, sec, after);
    var toks := [M.Token(san, body)];
    assert toks[1..] == [];
  }

  lemma ClockedScan(san: string, before: string, sec: int, after: string)
    requires W.WordSafe(san) && Solid(before) && Solid(after) && IsBody(before) && IsBody(after)
    ensures var body := before + ("[%clk " + Clock.FormatClock(sec) + "]" + after);
      M.Tokenize(ClockedMove(san, before, sec, after)).toks == [M.Token(san, body)]
  {
    var body := before + ("[%clk " + Clock.FormatClock(sec) + "]" + after);
    var st := M.Scan([], "");
    ClockBody(sec);
    assert IsBody(body) && body[0] == before[0] && body[|body| - 1] == after[|after| - 1];
    TrimSolid(body);
    W.SafeWordEffect(san, st);
    assert ClockedMove(san, before, sec, after) == san + (" " + (Braced(body) + ""));
    W.ScanPart(san, " " + (Braced(body) + ""), st);
    ScanBlank(Braced(body) + "", W.Plus(st, [M.Token(san, "")]));
    ScanComment(body, "", W.Plus(st, [M.Token(san, "")]));
    LastComment(st, san, "", body);
  }

  lemma ClockBody(sec: int)
    ensures Lacks("[%clk " + Clock.FormatClock(sec) + "]", '}')
  {
    W.ClockBody(sec);
  }

  // ---------- variations ----------

  /** How many parentheses are open behind s. */
  function Depth(s: string): int {
    if s == "" then 0
    else
      var c := s[|s| - 1];
      Depth(s[..|s| - 1]) + if c == '(' then 1 else if c == ')' then -1 else 0
  }

  lemma {:induction false} DepthAppend(a: string, b: string)
    ensures Depth(a + b) == Depth(a) + Depth(b)
    decreases |b|
  {
    if b == "" {
      assert a + b == a;
    } else {
      assert (a + b)[..|a + b| - 1] == a + b[..|b| - 1];
      DepthAppend(a, b[..|b| - 1]);
    }
  }

  lemma DepthCons(s: string)
    requires s != ""
    ensures forall j :: 0 < j <= |s| ==> Depth(s[..j]) == Depth(s[..1]) + Depth(s[1..][..j - 1])
    ensures Depth(s[..1]) == if s[0] == '(' then 1 else if s[0] == ')' then -1 else 0
  {
    assert s[..1][..0] == "" && Depth("") == 0;
    forall j | 0 < j <= |s| ensures Depth(s[..j]) == Depth(s[..1]) + Depth(s[1..][..j - 1]) {
      assert s[..j] == s[..1] + s[1..][..j - 1];
      DepthAppend(s[..1], s[1..][..j - 1]);
    }
  }

  /** The parentheses that are open before s are closed where its first j characters end. */
  predicate ClosesAt(s: string, depth: nat, j: nat) {
    0 < j <= |s| && depth + Depth(s[..j]) == 0
  }

  /** Moving one character on. */
  lemma ClosesOn(s: string, depth: nat, depth': nat, j: nat)
    requires s != "" && depth' == depth + Depth(s[..1]) && depth' > 0
    ensures ClosesAt(s, depth, j + 1) <==> ClosesAt(s[1..], depth', j)
    ensures !ClosesAt(s, depth, 0) && !ClosesAt(s, depth, 1)
  {
    DepthCons(s);
    assert s[1..][..0] == "";
  }

  /** A variation ends with the parenthesis that closes its own first one, however many are nested in
      it; one that is never closed takes the whole rest. */
  lemma {:induction false} VariationEnds(s: string, depth: nat)
    requires depth > 0 || (s != "" && s[0] == '(')
    ensures var k := M.VariationLength(s, depth);
      && (forall j :: 0 <= j < k ==> !ClosesAt(s, depth, j))
      && (k == |s| || ClosesAt(s, depth, k))
  {
    if s == "" {
    } else {
      DepthCons(s);
      var depth' := depth + Depth(s[..1]);
      if depth' == 0 {
      } else {
        var k := M.VariationLength(s[1..], depth');
        VariationEnds(s[1..], depth');
        forall j | 0 <= j < k + 1 ensures !ClosesAt(s, depth, j) {
          ClosesOn(s, depth, depth', if j > 0 then j - 1 else 0);
        }
        ClosesOn(s, depth, depth', k);
      }
    }
  }

  /** Parentheses match inside v. */
  ghost predicate Balanced(v: string) {
    Depth(v) == 0 && forall j :: 0 <= j <= |v| ==> Depth(v[..j]) >= 0
  }

  lemma VariationLength(v: string, rest: string)
    requires Balanced(v)
    ensures M.VariationLength("(" + v + ")" + rest, 0) == |v| + 2
  {
    var s, n := "(" + v + ")" + rest, |v| + 2;
    forall j | 0 < j < n ensures Depth(s[..j]) == 1 + Depth(v[..j - 1]) && !ClosesAt(s, 0, j) {
      assert s[..j] == "(" + v[..j - 1];
      DepthAppend("(", v[..j - 1]);
      assert "("[..0] == "";
    }
    assert s[..n] == ("(" + v) + ")";
    DepthAppend("(" + v, ")");
    assert ")"[..0] == "" && s[..n - 1] == "(" + v && v[..|v|] == v;
    VariationEnds(s, 0);
    assert ClosesAt(s, 0, n);
  }

  /** A variation, with any variations nested in it, leaves no trace. */
  lemma VariationLeavesNothing(v: string, rest: string, st: M.Scan)
    requires Balanced(v)
    ensures M.ScanFrom("(" + v + ")" + rest, st) == M.ScanFrom(rest, st)
  {
    VariationLength(v, rest);
    assert ("(" + v + ")" + rest)[|v| + 2..] == rest;
  }
}
