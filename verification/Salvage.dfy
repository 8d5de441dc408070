/** Recovering moves from truncated model output (internal/recognition/ollama.go). Decoding one
    object is a parameter: the white and black texts of a move, or None. */
module Salvage {
  import opened Text

  predicate IsBrace(c: char) { c == '{' || c == '}' }

  /** The range i..j is an object without inner braces. */
  ghost predicate IsLeaf(raw: string, i: nat, j: nat) {
    && i < j < |raw| && raw[i] == '{' && raw[j] == '}'
    && forall k :: i < k < j ==> !IsBrace(raw[k])
  }

  /** The last brace before n, or -1. */
  function LastBrace(raw: string, n: nat): (b: int)
    requires n <= |raw|
    ensures -1 <= b < n
    ensures b >= 0 ==> IsBrace(raw[b])
    ensures forall k :: b < k < n ==> !IsBrace(raw[k])
  {
    if n == 0 then -1 else if IsBrace(raw[n - 1]) then n - 1 else LastBrace(raw, n - 1)
  }

  datatype Range = Range(start: nat, end: nat)

  /** The leaf objects that end before n, in the order of their ends. */
  function Leaves(raw: string, n: nat): seq<Range>
    requires n <= |raw|
  {
    if n == 0 then []
    else
      var b := LastBrace(raw, n - 1);
      Leaves(raw, n - 1) + if raw[n - 1] == '}' && b >= 0 && raw[b] == '{' then [Range(b, n - 1)] else []
  }

  /** Leaves lists exactly the leaf objects, each once, from left to right without overlap. */
  lemma {:induction false} LeavesExact(raw: string, n: nat)
    requires n <= |raw|
    ensures forall r :: r in Leaves(raw, n) <==> IsLeaf(raw, r.start, r.end) && r.end < n
    ensures forall i, j :: 0 <= i < j < |Leaves(raw, n)| ==> Leaves(raw, n)[i].end < Leaves(raw, n)[j].start
  {
    if n == 0 {
    } else {
      LeavesExact(raw, n - 1);
      var before, b := Leaves(raw, n - 1), LastBrace(raw, n - 1);
      forall r: Range ensures IsLeaf(raw, r.start, r.end) && r.end == n - 1
        <==> r == Range(r.start, n - 1) && raw[n - 1] == '}' && b >= 0 && raw[b] == '{' && r.start == b
      {
        if IsLeaf(raw, r.start, r.end) && r.end == n - 1 { assert IsBrace(raw[r.start]); }
      }
      if raw[n - 1] == '}' && b >= 0 && raw[b] == '{' {
        forall i | 0 <= i < |before| ensures before[i].end < b {
          assert before[i] in before;
          assert IsLeaf(raw, before[i].start, before[i].end);
          assert IsBrace(raw[before[i].end]);
        }
      }
    }
  }

  // ---------- the stack scanner ----------

  datatype Frame = Frame(start: nat, child: bool)

  /** Only the innermost frame can be childless, and it is exactly when the last brace opened it. */
  ghost predicate StackMatches(raw: string, i: nat, stack: seq<Frame>)
    requires i <= |raw|
  {
    var b := LastBrace(raw, i);
    && (forall k :: 0 <= k < |stack| - 1 ==> stack[k].child)
    && (if b >= 0 && raw[b] == '{' then stack != [] && stack[|stack| - 1] == Frame(b, false)
        else stack != [] ==> stack[|stack| - 1].child)
  }

  function RangeTexts(raw: string, ranges: seq<Range>): (texts: seq<string>)
    ensures |texts| == |ranges|
  {
    seq(|ranges|, i requires 0 <= i < |ranges| => TextOf(raw, ranges[i]))
  }

  function TextOf(raw: string, r: Range): string {
    if r.start <= r.end < |raw| then raw[r.start..r.end + 1] else ""
  }

  method ScanObjects(raw: string) returns (objs: seq<string>)
    ensures objs == RangeTexts(raw, Leaves(raw, |raw|))
  {
    var stack: seq<Frame> := [];
    objs := [];
    for i := 0 to |raw|
      invariant StackMatches(raw, i, stack)
      invariant objs == RangeTexts(raw, Leaves(raw, i))
    {
      if raw[i] == '{' {
        var n := |stack|;
        if n > 0 { stack := stack[n - 1 := Frame(stack[n - 1].start, true)]; }
        stack := stack + [Frame(i, false)];
      } else if raw[i] == '}' {
        var n := |stack|;
        if n > 0 {
          var f := stack[n - 1];
          stack := stack[..n - 1];
          if !f.child { objs := objs + [raw[f.start..i + 1]]; }
        }
      }
    }
  }

  // ---------- move tokens ----------

  datatype ModelMove = ModelMove(white: string, black: string)

  datatype Token = Token(ply: nat, side: string, text: string, confidence: real)

  /** The texts of the rows in reading order, with their sides. */
  function RowTexts(rows: seq<ModelMove>): seq<(string, string)> {
    if rows == [] then []
    else
      RowTexts(rows[..|rows| - 1])
      + (if rows[|rows| - 1].white != "" then [("white", rows[|rows| - 1].white)] else [])
      + (if rows[|rows| - 1].black != "" then [("black", rows[|rows| - 1].black)] else [])
  }

  /** Tokens numbered from one, all with the flat confidence of the recognizer. */
  ghost predicate IsFlattened(rows: seq<ModelMove>, out: seq<Token>) {
    && |out| == |RowTexts(rows)|
    && forall k :: 0 <= k < |out| ==> out[k] == Token(k + 1, RowTexts(rows)[k].0, RowTexts(rows)[k].1, 0.5)
  }

  method FlattenModelMoves(rows: seq<ModelMove>) returns (out: seq<Token>)
    ensures IsFlattened(rows, out)
  {
    out := [];
    var ply := 0;
    for i := 0 to |rows|
      invariant ply == |out| && IsFlattened(rows[..i], out)
    {
      var row := rows[i];
      assert rows[..i + 1][..i] == rows[..i] && rows[..i + 1][i] == row;
      if row.white != "" {
        ply := ply + 1;
        out := out + [Token(ply, "white", row.white, 0.5)];
      }
      if row.black != "" {
        ply := ply + 1;
        out := out + [Token(ply, "black", row.black, 0.5)];
      }
    }
    assert rows[..|rows|] == rows;
  }

  // ---------- salvaging ----------

  /** strings.Index, -1 when absent. */
  function IndexOfText(s: string, what: string): (k: int)
    ensures -1 <= k <= |s|
  {
    if what <= s then 0
    else if s == "" then -1
    else
      var k := IndexOfText(s[1..], what);
      if k < 0 then -1 else k + 1
  }

  /** The part of the output that is scanned: from the moves array on, when it is named. */
  function MovesPart(raw: string): string {
    var k := IndexOfText(raw, "\"moves\"");
    if k >= 0 then raw[k..] else raw
  }

  function Decoded(decode: string -> Option<ModelMove>, objs: seq<string>): seq<ModelMove> {
    if objs == [] then []
    else
      var m := decode(objs[|objs| - 1]);
      Decoded(decode, objs[..|objs| - 1])
      + if m.Some? && (m.value.white != "" || m.value.black != "") then [m.value] else []
  }

  method SalvageMoves(raw: string, decode: string -> Option<ModelMove>) returns (out: seq<Token>)
    ensures var part := MovesPart(raw);
      IsFlattened(Decoded(decode, RangeTexts(part, Leaves(part, |part|))), out)
  {
    var part := raw;
    var mi := IndexOfText(raw, "\"moves\"");
    if mi >= 0 { part := raw[mi..]; }
    var objs := ScanObjects(part);
    var moves: seq<ModelMove> := [];
    for i := 0 to |objs|
      invariant moves == Decoded(decode, objs[..i])
    {
      assert objs[..i + 1][..i] == objs[..i];
      var m := decode(objs[i]);
      if m.Some? && (m.value.white != "" || m.value.black != "") { moves := moves + [m.value]; }
    }
    assert objs[..|objs|] == objs;
    out := FlattenModelMoves(moves);
  }
}
