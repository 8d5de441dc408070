/** Writing movetext, and the proof that scanning the written text gives the moves back
    (chesskit/pgn.go). */
module MovetextWriter {
  import opened Text
  import opened Movetext
  import opened Sorting
  import Clock

  // ---------- the parts of a movetext ----------

  /** strconv.Atoi: an optional sign and digits that fit a 64-bit int. */
  function Atoi(s: string): Option<int> {
    var digits := if s != "" && (s[0] == '-' || s[0] == '+') then s[1..] else s;
    if digits == "" || !AllDigits(digits) then None
    else
      var n: int := Value(digits);
      var n := if s[0] == '-' then -n else n;
      if -MAX_INT64 - 1 <= n <= MAX_INT64 then Some(n) else None
  }

  /** The full-move number and whether White is to move; 1 and White where the FEN is silent. */
  function StartCounters(fen: string): (c: (int, bool))
    ensures 1 <= c.0 <= MAX_INT64
  {
    var f := Fields(fen);
    var n := if |f| >= 6 then Atoi(f[5]) else None;
    (if n.Some? && n.value > 0 then n.value else 1, |f| >= 2 ==> f[1] != "b")
  }

  function ClockPart(clock: Option<int>): seq<string> {
    match clock
    case None => []
    case Some(sec) => ["{[%clk " + Clock.FormatClock(sec) + "]}"]
  }

  function NumberPart(num: int, white: bool, first: bool): seq<string> {
    if white then [FormatInt(num) + "."] else if first then [FormatInt(num) + "..."] else []
  }

  /** The move number after a move; it wraps like Go's int. */
  function NextNumber(num: int, white: bool): int {
    if white then num else Wrap64(num + 1)
  }

  function MoveParts(moves: seq<Move>, num: int, white: bool, first: bool): seq<string> {
    if moves == [] then []
    else
      NumberPart(num, white, first) + [moves[0].san] + ClockPart(moves[0].clock)
      + MoveParts(moves[1..], NextNumber(num, white), !white, false)
  }

  function Parts(start: string, moves: seq<Move>, res: string): (parts: seq<string>)
    ensures parts != []
  {
    var (num, white) := StartCounters(start);
    MoveParts(moves, num, white, true) + [res]
  }

  // ---------- move numbers ----------

  function Flatten(groups: seq<seq<string>>): seq<string> {
    if groups == [] then [] else groups[0] + Flatten(groups[1..])
  }

  /** The parts of the k-th move when the first one has number num: White's moves carry their number,
      Black's only at the start. */
  function MoveGroup(mv: Move, num: int, white: bool, first: bool, k: nat): seq<string> {
    var number := num + (k + (if white then 0 else 1)) / 2;
    (if white == (k % 2 == 0) then [FormatInt(number) + "."]
     else if first && k == 0 then [FormatInt(number) + "..."] else [])
    + [mv.san] + ClockPart(mv.clock)
  }

  function MoveGroups(moves: seq<Move>, num: int, white: bool, first: bool): (groups: seq<seq<string>>)
    ensures |groups| == |moves|
    ensures forall k :: 0 <= k < |moves| ==> groups[k] == MoveGroup(moves[k], num, white, first, k)
  {
    seq(|moves|, k requires 0 <= k < |moves| => MoveGroup(moves[k], num, white, first, k))
  }

  /** The movetext numbers its moves consecutively, for as long as the numbers fit a 64-bit int. */
  lemma {:induction false} NumberedMoves(moves: seq<Move>, num: int, white: bool, first: bool)
    requires 0 <= num <= MAX_INT64 && NumbersFit(|moves|, num, white)
    ensures MoveParts(moves, num, white, first) == Flatten(MoveGroups(moves, num, white, first))
    decreases |moves|
  {
    if moves == [] {
    } else {
      GroupsCons(moves, num, white, first);
      if |moves| > 1 {
        NumberedMoves(moves[1..], NextNumber(num, white), !white, false);
      } else {
        assert moves[1..] == [] && MoveGroups(moves[1..], NextNumber(num, white), !white, false) == [];
      }
      var head := NumberPart(num, white, first) + [moves[0].san] + ClockPart(moves[0].clock);
      assert MoveGroup(moves[0], num, white, first, 0) == head;
    }
  }

  lemma GroupsCons(moves: seq<Move>, num: int, white: bool, first: bool)
    requires 0 <= num <= MAX_INT64 && NumbersFit(|moves|, num, white) && moves != []
    ensures MoveGroups(moves, num, white, first)
      == [MoveGroup(moves[0], num, white, first, 0)] + MoveGroups(moves[1..], NextNumber(num, white), !white, false)
  {
    var rest := MoveGroups(moves[1..], NextNumber(num, white), !white, false);
    forall k | 0 <= k < |rest| ensures MoveGroups(moves, num, white, first)[k + 1] == rest[k] {
      GroupAt(moves, num, white, first, k);
    }
  }

  lemma GroupAt(moves: seq<Move>, num: int, white: bool, first: bool, k: nat)
    requires 0 <= num <= MAX_INT64 && (white || num < MAX_INT64) && k + 1 < |moves|
    ensures MoveGroups(moves, num, white, first)[k + 1]
      == MoveGroups(moves[1..], NextNumber(num, white), !white, false)[k]
  {
    assert moves[1..][k] == moves[k + 1];
    NextGroup(moves[k + 1], num, white, first, k);
  }

  lemma NextGroup(mv: Move, num: int, white: bool, first: bool, k: nat)
    requires white || num < MAX_INT64
    requires 0 <= num <= MAX_INT64
    ensures MoveGroup(mv, num, white, first, k + 1) == MoveGroup(mv, NextNumber(num, white), !white, false, k)
  {
  }

  // ---------- wrapping ----------

  /** The parts line by line: a line takes the next part while it stays within 80 columns. */
  function LinesFrom(line: seq<string>, parts: seq<string>): (lines: seq<seq<string>>)
    ensures lines != []
    decreases |parts|
  {
    if parts == [] then [line]
    else if |Join(line, " ")| > 0 && |Join(line, " ")| + |parts[0]| + 1 > 80 then
      [line] + LinesFrom([parts[0]], parts[1..])
    else LinesFrom(line + [parts[0]], parts[1..])
  }

  function JoinLines(lines: seq<seq<string>>): (texts: seq<string>)
    ensures |texts| == |lines|
    ensures forall i :: 0 <= i < |lines| ==> texts[i] == Join(lines[i], " ")
  {
    seq(|lines|, i requires 0 <= i < |lines| => Join(lines[i], " "))
  }

  function Wrapped(parts: seq<string>): seq<string> {
    if parts == [] then [""] else JoinLines(LinesFrom([parts[0]], parts[1..]))
  }

  method WrapMovetext(parts: seq<string>) returns (b: string)
    ensures b == Join(Wrapped(parts), "\n")
  {
    b := "";
    var lineLen := 0;
    ghost var done: seq<seq<string>>, line: seq<string> := [], [];
    for i := 0 to |parts|
      invariant i == 0 ==> b == "" && lineLen == 0 && done == []
      invariant i > 0 ==> line != [] && lineLen == |Join(line, " ")|
      invariant i > 0 ==> b == Join(JoinLines(done + [line]), "\n")
      invariant i > 0 ==> LinesFrom([parts[0]], parts[1..]) == done + LinesFrom(line, parts[i..])
    {
      var p := parts[i];
      var add := |p|;
      if i > 0 { add := add + 1; }
      if lineLen > 0 && lineLen + add > 80 {
        AppendLine(done + [line], [p]);
        b := b + "\n" + p;
        lineLen := |p|;
        assert parts[i..][1..] == parts[i + 1..];
        done, line := done + [line], [p];
        continue;
      }
      if i > 0 {
        assert parts[i..][1..] == parts[i + 1..];
        ExtendLine(done, line, p);
        b := b + " ";
        line := line + [p];
      } else {
        line := [p];
        assert JoinLines([line]) == [p];
      }
      b := b + p;
      lineLen := lineLen + add;
    }
    assert parts != [] ==> parts[|parts|..] == [];
  }

  lemma AppendLine(lines: seq<seq<string>>, line: seq<string>)
    requires lines != []
    ensures Join(JoinLines(lines + [line]), "\n") == Join(JoinLines(lines), "\n") + "\n" + Join(line, " ")
  {
    assert JoinLines(lines + [line]) == JoinLines(lines) + [Join(line, " ")];
    JoinAppend(JoinLines(lines), [Join(line, " ")], "\n");
  }

  lemma ExtendLine(done: seq<seq<string>>, line: seq<string>, p: string)
    requires line != []
    ensures Join(line + [p], " ") == Join(line, " ") + " " + p
    ensures Join(JoinLines(done + [line + [p]]), "\n") == Join(JoinLines(done + [line]), "\n") + " " + p
  {
    JoinAppend(line, [p], " ");
    if done == [] {
      assert JoinLines(done + [line]) == [Join(line, " ")];
      assert JoinLines(done + [line + [p]]) == [Join(line + [p], " ")];
    } else {
      AppendLine(done, line);
      AppendLine(done, line + [p]);
    }
  }

  /** Wrapping only turns some of the separating spaces into line ends. */
  lemma {:induction false} LinesKeepText(line: seq<string>, parts: seq<string>)
    requires line != []
    ensures Join(JoinLines(LinesFrom(line, parts)), " ") == Join(line + parts, " ")
    decreases |parts|
  {
    if parts == [] {
      assert JoinLines([line]) == [Join(line, " ")];
      assert line + parts == line;
    } else if |Join(line, " ")| > 0 && |Join(line, " ")| + |parts[0]| + 1 > 80 {
      var rest := LinesFrom([parts[0]], parts[1..]);
      LinesKeepText([parts[0]], parts[1..]);
      assert [parts[0]] + parts[1..] == parts;
      assert JoinLines([line] + rest) == [Join(line, " ")] + JoinLines(rest);
      JoinAppend([Join(line, " ")], JoinLines(rest), " ");
      JoinAppend(line, parts, " ");
    } else {
      LinesKeepText(line + [parts[0]], parts[1..]);
      assert line + [parts[0]] + parts[1..] == line + parts;
    }
  }

  predicate GoodLine(line: seq<string>, parts: seq<string>) {
    && line != [] && (forall p :: p in line ==> p in parts)
    && (|Join(line, " ")| <= 80 || |line| == 1)
  }

  /** Only a single part may be longer than 80 columns. */
  lemma {:induction false} LinesGood(line: seq<string>, parts: seq<string>, all: seq<string>)
    requires GoodLine(line, all) && Join(line, " ") != ""
    requires forall p :: p in parts ==> p in all && p != ""
    ensures forall l :: l in LinesFrom(line, parts) ==> GoodLine(l, all)
    decreases |parts|
  {
    if parts == [] {
    } else {
      assert parts[0] in parts && parts[0] != "";
      assert forall p :: p in parts[1..] ==> p in parts;
      if |Join(line, " ")| + |parts[0]| + 1 > 80 {
        LinesGood([parts[0]], parts[1..], all);
      } else {
        JoinAppend(line, [parts[0]], " ");
        LinesGood(line + [parts[0]], parts[1..], all);
      }
    }
  }

  /** Section 8.2.1 wants lines under 80 columns; the program allows exactly 80. */
  lemma WrapKeepsParts(parts: seq<string>)
    requires parts != [] && forall p :: p in parts ==> p != "" && Lacks(p, '\n')
    ensures Join(Split(Join(Wrapped(parts), "\n"), '\n'), " ") == Join(parts, " ")
    ensures Split(Join(Wrapped(parts), "\n"), '\n') == Wrapped(parts)
    ensures forall l :: l in Wrapped(parts) ==> |l| <= 80 || l in parts
  {
    var lines := LinesFrom([parts[0]], parts[1..]);
    assert forall p :: p in parts[1..] ==> p in parts;
    assert [parts[0]] + parts[1..] == parts;
    assert parts[0] in parts && Join([parts[0]], " ") == parts[0];
    LinesKeepText([parts[0]], parts[1..]);
    LinesGood([parts[0]], parts[1..], parts);
    forall l | l in JoinLines(lines) ensures Lacks(l, '\n') && (|l| <= 80 || l in parts) {
      var i :| 0 <= i < |lines| && l == Join(lines[i], " ");
      assert GoodLine(lines[i], parts);
      JoinLacks(lines[i], '\n');
    }
    SplitJoin(Wrapped(parts), '\n');
  }

  lemma {:induction false} JoinLacks(parts: seq<string>, c: char)
    requires c != ' ' && forall p :: p in parts ==> Lacks(p, c)
    ensures Lacks(Join(parts, " "), c)
  {
    if parts == [] {
    } else {
      assert Lacks(parts[0], c);
      if |parts| > 1 { JoinLacks(parts[1..], c); }
    }
  }

  // ---------- lines of fewer than 80 columns ----------

  /** The filling that section 8.2.1 asks for: a line takes the next part while it stays under 80
      columns. */
  function NarrowFrom(line: seq<string>, parts: seq<string>): (lines: seq<seq<string>>)
    ensures lines != []
    decreases |parts|
  {
    if parts == [] then [line]
    else if |Join(line, " ")| > 0 && |Join(line, " ")| + |parts[0]| + 1 >= 80 then
      [line] + NarrowFrom([parts[0]], parts[1..])
    else NarrowFrom(line + [parts[0]], parts[1..])
  }

  /** The open line only grows. */
  lemma {:induction false} FirstLineGrows(line: seq<string>, parts: seq<string>)
    requires line != []
    ensures line <= LinesFrom(line, parts)[0]
    ensures |Join(line, " ")| <= |Join(LinesFrom(line, parts)[0], " ")|
    decreases |parts|
  {
    if parts == [] {
    } else {
      JoinAppend(line, [parts[0]], " ");
      FirstLineGrows(line + [parts[0]], parts[1..]);
    }
  }

  ghost predicate AllNarrow(lines: seq<seq<string>>) {
    forall i :: 0 <= i < |lines| ==> |Join(lines[i], " ")| < 80
  }

  lemma NarrowCons(line: seq<string>, lines: seq<seq<string>>)
    ensures AllNarrow([line] + lines) <==> |Join(line, " ")| < 80 && AllNarrow(lines)
  {
    if AllNarrow([line] + lines) {
      assert ([line] + lines)[0] == line;
      forall i | 0 <= i < |lines| ensures |Join(lines[i], " ")| < 80 { assert ([line] + lines)[i + 1] == lines[i]; }
    }
  }

  ghost predicate ShortParts(parts: seq<string>) {
    forall p :: p in parts ==> |p| < 80
  }

  lemma {:induction false} NarrowExactly(line: seq<string>, parts: seq<string>)
    requires line != [] && 0 < |Join(line, " ")| < 80 && forall p :: p in parts ==> p != ""
    ensures AllNarrow(LinesFrom(line, parts))
      <==> ShortParts(parts) && LinesFrom(line, parts) == NarrowFrom(line, parts)
    decreases |parts|
  {
    if parts == [] {
    } else {
      var p, rest := parts[0], parts[1..];
      assert p in parts && parts == [p] + rest && (forall q :: q in rest ==> q in parts);
      var size := |Join(line, " ")| + |p| + 1;
      JoinAppend(line, [p], " ");
      if size > 80 {
        NarrowCons(line, LinesFrom([p], rest));
        assert Join([p], " ") == p;
        if |p| < 80 { NarrowExactly([p], rest); } else { FirstLineGrows([p], rest); }
        assert LinesFrom(line, parts)[1..] == LinesFrom([p], rest);
        assert NarrowFrom(line, parts)[1..] == NarrowFrom([p], rest);
      } else if size == 80 {
        FirstLineGrows(line + [p], rest);
        assert NarrowFrom(line, parts)[0] == line;
      } else {
        NarrowExactly(line + [p], rest);
      }
    }
  }

  /** Where the standard's filling starts a line, one more part would not have made exactly 80
      columns. */
  ghost predicate NeverEighty(lines: seq<seq<string>>) {
    forall i :: 0 <= i < |lines| - 1 ==> NotEightyAt(lines, i)
  }

  predicate NotEightyAt(lines: seq<seq<string>>, i: nat)
    requires i + 1 < |lines|
  {
    lines[i + 1] != [] && |Join(lines[i], " ")| + |lines[i + 1][0]| + 1 != 80
  }

  lemma EightyCons(line: seq<string>, lines: seq<seq<string>>)
    requires lines != []
    ensures NeverEighty([line] + lines)
      <==> lines[0] != [] && |Join(line, " ")| + |lines[0][0]| + 1 != 80 && NeverEighty(lines)
  {
    var all := [line] + lines;
    assert all[0] == line && all[1] == lines[0];
    if NeverEighty(all) {
      assert NotEightyAt(all, 0);
      forall i | 0 <= i < |lines| - 1 ensures NotEightyAt(lines, i) { assert NotEightyAt(all, i + 1); }
    }
    if NeverEighty(lines) {
      forall i | 1 <= i < |all| - 1 ensures NotEightyAt(all, i) { assert NotEightyAt(lines, i - 1); }
    }
  }

  lemma {:induction false} NarrowStarts(line: seq<string>, parts: seq<string>)
    requires line != []
    ensures NarrowFrom(line, parts)[0] != [] && NarrowFrom(line, parts)[0][0] == line[0]
    decreases |parts|
  {
    if parts == [] {
    } else {
      NarrowStarts(line + [parts[0]], parts[1..]);
    }
  }

  /** The two fillings give the same lines exactly when no line could have had 80 columns. */
  lemma {:induction false} SameFilling(line: seq<string>, parts: seq<string>)
    requires line != [] && Join(line, " ") != "" && forall p :: p in parts ==> p != ""
    ensures LinesFrom(line, parts) == NarrowFrom(line, parts) <==> NeverEighty(NarrowFrom(line, parts))
    decreases |parts|
  {
    if parts == [] {
    } else {
      var p, rest := parts[0], parts[1..];
      assert p in parts && forall q :: q in rest ==> q in parts;
      var size := |Join(line, " ")| + |p| + 1;
      JoinAppend(line, [p], " ");
      if size >= 80 {
        NarrowStarts([p], rest);
        EightyCons(line, NarrowFrom([p], rest));
        assert NarrowFrom(line, parts)[1..] == NarrowFrom([p], rest);
        if size == 80 {
          FirstLineGrows(line + [p], rest);
          assert NarrowFrom(line, parts)[0] == line;
        } else {
          SameFilling([p], rest);
          assert LinesFrom(line, parts)[1..] == LinesFrom([p], rest);
        }
      } else {
        SameFilling(line + [p], rest);
      }
    }
  }

  /** The written lines have fewer than 80 columns, as section 8.2.1 asks, if and only if the parts do
      and the filling up to 79 columns never turns down a part that would have made exactly 80. */
  lemma WrapMeetsStandard(parts: seq<string>)
    requires parts != [] && forall p :: p in parts ==> p != ""
    ensures (forall l :: l in Wrapped(parts) ==> |l| < 80)
      <==> ShortParts(parts) && NeverEighty(NarrowFrom([parts[0]], parts[1..]))
  {
    var lines := LinesFrom([parts[0]], parts[1..]);
    assert parts[0] in parts && parts == [parts[0]] + parts[1..] && Join([parts[0]], " ") == parts[0];
    assert forall p :: p in parts[1..] ==> p in parts;
    if |parts[0]| < 80 {
      NarrowExactly([parts[0]], parts[1..]);
      SameFilling([parts[0]], parts[1..]);
    } else {
      FirstLineGrows([parts[0]], parts[1..]);
    }
    WrappedNarrow(lines);
  }

  lemma WrappedNarrow(lines: seq<seq<string>>)
    ensures (forall l :: l in JoinLines(lines) ==> |l| < 80) <==> AllNarrow(lines)
  {
    if forall l :: l in JoinLines(lines) ==> |l| < 80 {
      forall i | 0 <= i < |lines| ensures |Join(lines[i], " ")| < 80 { assert JoinLines(lines)[i] in JoinLines(lines); }
    }
  }

  // ---------- a line of exactly 80 columns ----------

  /** The length of a movetext on one line. */
  function LineSize(moves: seq<Move>, num: int, white: bool, first: bool, res: string): nat {
    if moves == [] then |res|
    else
      PartsSize(NumberPart(num, white, first) + [moves[0].san] + ClockPart(moves[0].clock))
      + LineSize(moves[1..], NextNumber(num, white), !white, false, res)
  }

  /** The length of parts, each with a space behind it. */
  function PartsSize(parts: seq<string>): nat {
    if parts == [] then 0 else |parts[0]| + 1 + PartsSize(parts[1..])
  }

  lemma {:induction false} JoinSize(parts: seq<string>, tail: seq<string>)
    requires tail != []
    ensures |Join(parts + tail, " ")| == PartsSize(parts) + |Join(tail, " ")|
  {
    if parts == [] {
      assert parts + tail == tail;
    } else {
      assert parts + tail == [parts[0]] + (parts[1..] + tail);
      JoinCons(parts[0], parts[1..] + tail, " ");
      JoinSize(parts[1..], tail);
    }
  }

  lemma {:induction false} MovesSize(moves: seq<Move>, num: int, white: bool, first: bool, res: string)
    ensures |Join(MoveParts(moves, num, white, first) + [res], " ")| == LineSize(moves, num, white, first, res)
    decreases |moves|
  {
    if moves == [] {
      assert [] + [res] == [res] && Join([res], " ") == res;
    } else {
      var head := NumberPart(num, white, first) + [moves[0].san] + ClockPart(moves[0].clock);
      var rest := MoveParts(moves[1..], NextNumber(num, white), !white, false) + [res];
      assert MoveParts(moves, num, white, first) + [res] == head + rest;
      JoinSize(head, rest);
      MovesSize(moves[1..], NextNumber(num, white), !white, false, res);
    }
  }

  /** What fits one line is written on one line. */
  lemma {:induction false} OneLine(line: seq<string>, parts: seq<string>)
    requires line != [] && |Join(line + parts, " ")| <= 80
    ensures LinesFrom(line, parts) == [line + parts]
    decreases |parts|
  {
    if parts == [] {
      assert line + parts == line;
    } else {
      assert line + parts == line + [parts[0]] + parts[1..];
      JoinAppend(line, [parts[0]], " ");
      if parts[1..] != [] { JoinAppend(line + [parts[0]], parts[1..], " "); } else { assert parts == [parts[0]]; }
      OneLine(line + [parts[0]], parts[1..]);
    }
  }

  lemma OneLineGame(start: string, moves: seq<Move>, res: string)
    requires var (num, white) := StartCounters(start); LineSize(moves, num, white, true, res) <= 80
    ensures var (num, white) := StartCounters(start);
      |Wrapped(Parts(start, moves, res))| == 1
      && |Wrapped(Parts(start, moves, res))[0]| == LineSize(moves, num, white, true, res)
  {
    var (num, white) := StartCounters(start);
    var parts := Parts(start, moves, res);
    MovesSize(moves, num, white, true, res);
    assert [parts[0]] + parts[1..] == parts;
    OneLine([parts[0]], parts[1..]);
  }

  /** A drawn game of four moves of three letters, clocks on the first three: its one line has exactly
      80 columns. */
  lemma WrapReaches80(moves: seq<Move>)
    requires |moves| == 4 && forall i :: 0 <= i < 4 ==> |moves[i].san| == 3
    requires moves[0].clock == moves[1].clock == moves[2].clock == Some(0) && moves[3].clock == None
    ensures var lines := Wrapped(Parts("", moves, "1/2-1/2")); |lines| == 1 && |lines[0]| == 80
  {
    EmptyCounters();
    var m3 := moves[3..];
    assert moves[1..][1..] == moves[2..] && moves[2..][1..] == m3 && m3[1..] == [];
    assert moves[1..][0] == moves[1] && moves[2..][0] == moves[2] && m3[0] == moves[3];
    GroupSize(moves[0], 1, true, true);
    GroupSize(moves[1], 1, false, false);
    GroupSize(moves[2], 2, true, false);
    GroupSize(moves[3], 2, false, false);
    assert LineSize(m3[1..], 3, true, false, "1/2-1/2") == 7;
    assert LineSize(m3, 2, false, false, "1/2-1/2") == 4 + 7;
    assert LineSize(moves[2..], 2, true, false, "1/2-1/2") == 24 + 4 + 7;
    assert LineSize(moves[1..], 1, false, false, "1/2-1/2") == 21 + 24 + 4 + 7;
    assert LineSize(moves, 1, true, true, "1/2-1/2") == 24 + 21 + 24 + 4 + 7;
    OneLineGame("", moves, "1/2-1/2");
  }

  lemma EmptyCounters()
    ensures StartCounters("") == (1, true)
  {
    assert Fields("") == [];
  }

  /** The columns that one move takes: a one-digit number, the move, a zero clock. */
  lemma GroupSize(mv: Move, num: int, white: bool, first: bool)
    requires 0 <= num < 10 && |mv.san| == 3 && (mv.clock == None || mv.clock == Some(0)) && (white || !first)
    ensures PartsSize(NumberPart(num, white, first) + [mv.san] + ClockPart(mv.clock))
      == (if white then 3 else 0) + 4 + (if mv.clock == None then 0 else 17)
  {
    SizeAppend(NumberPart(num, white, first) + [mv.san], ClockPart(mv.clock));
    SizeAppend(NumberPart(num, white, first), [mv.san]);
    ZeroClock();
    SizeOne(mv.san);
    if white { SizeOne(FormatInt(num) + "."); }
    if mv.clock.Some? { SizeOne("{[%clk " + Clock.FormatClock(0) + "]}"); }
  }

  lemma SizeOne(p: string)
    ensures PartsSize([p]) == |p| + 1
  {
    assert [p][1..] == [];
  }

  lemma {:induction false} SizeAppend(a: seq<string>, b: seq<string>)
    ensures PartsSize(a + b) == PartsSize(a) + PartsSize(b)
  {
    if a == [] {
      assert a + b == b;
    } else {
      assert (a + b)[1..] == a[1..] + b;
      SizeAppend(a[1..], b);
    }
  }

  lemma ZeroClock()
    ensures |Clock.FormatClock(0)| == 7
  {
    assert |Decimal(0)| == 1;
  }

  // ---------- scanning what was written ----------

  /** A word that the scanner takes for a move token with exactly this spelling. */
  predicate WordSafe(s: string) {
    && Solid(s)
    && (forall i :: 0 <= i < |s| ==> !EndsWord(s[i]))
    && s[0] != '$' && !IsDigit(s[0]) && !IsResult(s)
    && CountDots(s) < |s|
  }

  /** A part is a word, or a brace comment. */
  predicate IsWord(p: string) {
    p != "" && p[0] != '$' && forall i :: 0 <= i < |p| ==> !EndsWord(p[i])
  }

  predicate IsComment(p: string) {
    |p| >= 2 && p[0] == '{' && p[|p| - 1] == '}' && Lacks(p[..|p| - 1], '}')
  }

  function PartEffect(p: string, st: Scan): Scan
    requires IsWord(p) || IsComment(p)
  {
    if p[0] == '{' then AddComment(st, p[1..|p| - 1]) else AddWord(st, p)
  }

  lemma {:induction false} WordEndOf(p: string, rest: string)
    requires forall i :: 0 <= i < |p| ==> !EndsWord(p[i])
    requires rest == "" || EndsWord(rest[0])
    ensures WordEnd(p + rest) == |p|
  {
    if p == "" {
      assert p + rest == rest;
    } else {
      assert (p + rest)[1..] == p[1..] + rest;
      WordEndOf(p[1..], rest);
    }
  }

  lemma ScanPart(p: string, rest: string, st: Scan)
    requires IsWord(p) || IsComment(p)
    requires rest == "" || rest[0] == ' '
    ensures ScanFrom(p + rest, st) == ScanFrom(rest, PartEffect(p, st))
  {
    var s := p + rest;
    assert s[0] == p[0];
    if p[0] == '{' {
      var e := |p| - 1;
      assert s[..e] == p[..e];
      IndexOfAt(s, '}', e);
      assert s[1..e] == p[1..e] && s[e + 1..] == rest;
    } else {
      assert !EndsWord(p[0]);
      WordEndOf(p, rest);
      assert s[..|p|] == p && s[|p|..] == rest;
    }
  }

  function ScanParts(parts: seq<string>, st: Scan): Scan
    requires forall p :: p in parts ==> IsWord(p) || IsComment(p)
  {
    if parts == [] then st else ScanParts(parts[1..], PartEffect(parts[0], st))
  }

  lemma {:induction false} ScanJoined(parts: seq<string>, st: Scan)
    requires forall p :: p in parts ==> IsWord(p) || IsComment(p)
    ensures ScanFrom(Join(parts, " "), st) == ScanParts(parts, st)
  {
    if |parts| == 1 {
      ScanPart(parts[0], "", st);
      assert parts[0] + "" == parts[0];
    } else if |parts| > 1 {
      var tail := Join(parts[1..], " ");
      ScanPart(parts[0], " " + tail, st);
      assert parts[0] + " " + tail == parts[0] + (" " + tail);
      var st' := PartEffect(parts[0], st);
      assert (" " + tail)[1..] == tail;
      assert ScanFrom(" " + tail, st') == ScanFrom(tail, st');
      ScanJoined(parts[1..], st');
    }
  }

  // ---------- spellings with a leading number ----------

  /** A word that is scanned as a move, once its leading number is gone. */
  predicate Numbered(s: string) {
    IsWord(s) && Solid(s) && !IsResult(s) && StripMoveNumber(s) != ""
  }

  function Stripped(m: Move): Move {
    m.(san := StripMoveNumber(m.san))
  }

  function StrippedMoves(moves: seq<Move>): (stripped: seq<Move>)
    ensures |stripped| == |moves|
    ensures forall i :: 0 <= i < |moves| ==> stripped[i] == Stripped(moves[i])
  {
    Map(Stripped, moves)
  }

  ghost predicate NumberedSans(moves: seq<Move>) {
    forall m :: m in moves ==> Numbered(m.san)
  }

  /** A safe word has no leading number. */
  lemma SafeIsNumbered(s: string)
    requires WordSafe(s)
    ensures Numbered(s) && StripMoveNumber(s) == s
  {
    TrimSolid(s);
    assert CountDigits(s) == 0;
    assert !EndsWord(s[0]);
  }

  lemma SafeStripped(moves: seq<Move>)
    requires SafeMoves(moves)
    ensures NumberedSans(moves) && StrippedMoves(moves) == moves
  {
    forall i | 0 <= i < |moves| ensures Numbered(moves[i].san) && StrippedMoves(moves)[i] == moves[i] {
      assert moves[i] in moves;
      SafeIsNumbered(moves[i].san);
    }
  }

  lemma NumberedEffect(w: string, st: Scan)
    requires Numbered(w)
    ensures IsWord(w) && PartEffect(w, st) == Plus(st, [Token(StripMoveNumber(w), "")])
  {
    TrimSolid(w);
    assert !EndsWord(w[0]);
  }

  // ---------- the moves come back ----------

  function MoveToken(m: Move): Token {
    Token(m.san, match m.clock case None => "" case Some(sec) => "[%clk " + Clock.FormatClock(sec) + "]")
  }

  function MoveTokens(moves: seq<Move>): (toks: seq<Token>)
    ensures |toks| == |moves|
    ensures forall i :: 0 <= i < |moves| ==> toks[i] == MoveToken(moves[i])
  {
    Map(MoveToken, moves)
  }

  /** A negative move number does not start with a digit, so it is read as a move. */
  function NumberTokens(num: int, white: bool, first: bool): seq<Token> {
    if num >= 0 || !(white || first) then []
    else [Token(FormatInt(num) + if white then "." else "...", "")]
  }

  function WrittenTokens(moves: seq<Move>, num: int, white: bool, first: bool): seq<Token> {
    if moves == [] then []
    else
      NumberTokens(num, white, first) + [MoveToken(moves[0])]
      + WrittenTokens(moves[1..], NextNumber(num, white), !white, false)
  }

  ghost predicate SafeMoves(moves: seq<Move>) {
    forall m :: m in moves ==> WordSafe(m.san)
  }

  lemma DigitsThenDots(d: string, dots: string)
    requires d != "" && AllDigits(d) && dots != "" && CountDots(dots) == |dots|
    ensures CountDigits(d + dots) == |d| && StripMoveNumber(d + dots) == ""
    ensures Solid(d + dots) && !IsResult(d + dots) && IsWord(d + dots)
  {
    var w := d + dots;
    CountDigitsOf(d, dots);
    assert w[|d|..] == dots && w[|d| + |dots|..] == "";
    assert w[|d|] == '.';
    forall i | 0 <= i < |w| ensures !EndsWord(w[i]) {
      if i < |d| { assert w[i] == d[i] && IsDigit(d[i]); } else { assert w[i] == dots[i - |d|]; }
    }
    assert w[|w| - 1] == dots[|dots| - 1];
    assert IsDigit(w[0]);
  }

  lemma {:induction false} CountDigitsOf(d: string, rest: string)
    requires AllDigits(d) && (rest == "" || !IsDigit(rest[0]))
    ensures CountDigits(d + rest) == |d|
  {
    if d == "" {
      assert d + rest == rest;
    } else {
      assert (d + rest)[1..] == d[1..] + rest;
      CountDigitsOf(d[1..], rest);
    }
  }

  lemma NegativeWord(d: string, dots: string)
    requires d != "" && AllDigits(d) && dots != "" && CountDots(dots) == |dots|
    ensures WordSafe("-" + d + dots) && IsWord("-" + d + dots)
  {
    var w := "-" + d + dots;
    NegativeChars(d, dots);
    assert w[0] == '-';
  }

  lemma NegativeChars(d: string, dots: string)
    requires AllDigits(d) && dots != "" && CountDots(dots) == |dots|
    ensures var w := "-" + d + dots;
      !IsSpace(w[|w| - 1]) && forall i :: 0 <= i < |w| ==> !EndsWord(w[i])
  {
    var w := "-" + d + dots;
    forall i | 0 <= i < |w| ensures !EndsWord(w[i]) {
      if 1 <= i <= |d| { assert w[i] == d[i - 1] && IsDigit(d[i - 1]); }
      if i > |d| { assert w[i] == dots[i - |d| - 1]; }
    }
    assert w[|w| - 1] == dots[|dots| - 1];
  }

  /** A safe word is recorded as it is. */
  lemma SafeWordEffect(w: string, st: Scan)
    requires WordSafe(w)
    ensures IsWord(w) && PartEffect(w, st) == st.(toks := st.toks + [Token(w, "")])
  {
    TrimSolid(w);
    assert CountDigits(w) == 0;
    assert !EndsWord(w[0]);
  }

  lemma NumberEffect(num: int, white: bool, first: bool, st: Scan)
    requires white || first
    ensures var p := FormatInt(num) + if white then "." else "...";
      IsWord(p) && PartEffect(p, st) == st.(toks := st.toks + NumberTokens(num, white, first))
  {
    var dots := if white then "." else "...";
    var p := FormatInt(num) + dots;
    assert CountDots(dots) == |dots|;
    if num < 0 {
      NegativeWord(Decimal(-num), dots);
      SafeWordEffect(p, st);
    } else {
      DigitsThenDots(Decimal(num), dots);
      TrimSolid(p);
      assert IsDigit(p[0]);
      assert st.toks + [] == st.toks;
    }
  }

  lemma ClockBody(sec: int)
    ensures var body := "[%clk " + Clock.FormatClock(sec) + "]"; Solid(body) && Lacks(body, '}')
  {
    var n := if sec < 0 then 0 else sec;
    var h, m, s := Decimal(n / 3600), Clock.TwoDigits(n % 3600 / 60), Clock.TwoDigits(n % 60);
    var clock := h + ":" + m + ":" + s;
    assert Lacks(h, '}') && Lacks(m, '}') && Lacks(s, '}');
    assert Lacks(clock, '}') && clock == Clock.FormatClock(sec);
    var body := "[%clk " + clock + "]";
    assert body[|body| - 1] == ']' && body[0] == '[';
  }

  /** A comment after a fresh move token becomes its comment. */
  lemma CommentEffect(body: string, san: string, st: Scan)
    requires Solid(body) && Lacks(body, '}')
    ensures var p := "{" + body + "}";
      IsComment(p) && PartEffect(p, Plus(st, [Token(san, "")])) == Plus(st, [Token(san, body)])
  {
    var p := "{" + body + "}";
    assert p[1..|p| - 1] == body && p[..|p| - 1] == "{" + body;
    TrimSolid(body);
    var toks := st.toks + [Token(san, "")];
    assert toks[..|toks| - 1] == st.toks;
    assert "" + body == body;
  }

  lemma ClockEffect(m: Move, st: Scan)
    requires m.clock.Some?
    ensures var p := "{[%clk " + Clock.FormatClock(m.clock.value) + "]}";
      IsComment(p) && PartEffect(p, Plus(st, [Token(m.san, "")])) == Plus(st, [MoveToken(m)])
  {
    var body := "[%clk " + Clock.FormatClock(m.clock.value) + "]";
    ClockBody(m.clock.value);
    CommentEffect(body, m.san, st);
    assert "{[%clk " + Clock.FormatClock(m.clock.value) + "]}" == "{" + body + "}";
  }

  function Plus(st: Scan, toks: seq<Token>): Scan {
    st.(toks := st.toks + toks)
  }

  ghost predicate GoodParts(parts: seq<string>) {
    forall p :: p in parts ==> IsWord(p) || IsComment(p)
  }

  lemma {:induction false} ScanPartsAppend(a: seq<string>, b: seq<string>, st: Scan)
    requires GoodParts(a) && GoodParts(b)
    ensures ScanParts(a + b, st) == ScanParts(b, ScanParts(a, st))
  {
    if a == [] {
      assert a + b == b;
    } else {
      assert (a + b)[1..] == a[1..] + b;
      ScanPartsAppend(a[1..], b, PartEffect(a[0], st));
    }
  }

  /** Appending parts appends their tokens. */
  lemma EffectsAppend(a: seq<string>, b: seq<string>, ta: seq<Token>, tb: seq<Token>, st: Scan)
    requires GoodParts(a) && GoodParts(b)
    requires ScanParts(a, st) == Plus(st, ta)
    requires ScanParts(b, Plus(st, ta)) == Plus(Plus(st, ta), tb)
    ensures GoodParts(a + b) && ScanParts(a + b, st) == Plus(st, ta + tb)
  {
    ScanPartsAppend(a, b, st);
    PlusPlus(st, ta, tb);
  }

  lemma PlusPlus(st: Scan, a: seq<Token>, b: seq<Token>)
    ensures Plus(Plus(st, a), b) == Plus(st, a + b)
  {
    assert st.toks + a + b == st.toks + (a + b);
  }

  lemma NumberPartEffect(num: int, white: bool, first: bool, st: Scan)
    ensures GoodParts(NumberPart(num, white, first))
    ensures ScanParts(NumberPart(num, white, first), st) == Plus(st, NumberTokens(num, white, first))
  {
    if white || first { NumberEffect(num, white, first, st); } else { assert st.toks + [] == st.toks; }
  }

  lemma ClockPartEffect(m: Move, st: Scan)
    ensures GoodParts(ClockPart(m.clock))
    ensures ScanParts(ClockPart(m.clock), Plus(st, [Token(m.san, "")])) == Plus(st, [MoveToken(m)])
  {
    if m.clock.Some? { ClockEffect(m, st); }
  }

  lemma OneMoveEffect(m: Move, num: int, white: bool, first: bool, st: Scan)
    requires Numbered(m.san)
    ensures var parts := NumberPart(num, white, first) + [m.san] + ClockPart(m.clock);
      GoodParts(parts)
      && ScanParts(parts, st) == Plus(st, NumberTokens(num, white, first) + [MoveToken(Stripped(m))])
  {
    var number, clock := NumberPart(num, white, first), ClockPart(m.clock);
    var st1 := Plus(st, NumberTokens(num, white, first));
    NumberPartEffect(num, white, first, st);
    NumberedEffect(m.san, st1);
    OneWord(m.san, st1);
    ClockPartEffect(Stripped(m), st1);
    ScanPartsAppend(number, [m.san], st);
    ScanPartsAppend(number + [m.san], clock, st);
    PlusPlus(st, NumberTokens(num, white, first), [MoveToken(Stripped(m))]);
  }

  lemma OneWord(w: string, st: Scan)
    requires IsWord(w)
    ensures GoodParts([w]) && ScanParts([w], st) == PartEffect(w, st)
  {
    assert [w][1..] == [];
  }

  lemma {:induction false} MovesEffect(moves: seq<Move>, num: int, white: bool, first: bool, st: Scan)
    requires NumberedSans(moves)
    ensures GoodParts(MoveParts(moves, num, white, first))
    ensures ScanParts(MoveParts(moves, num, white, first), st)
      == Plus(st, WrittenTokens(StrippedMoves(moves), num, white, first))
    decreases |moves|
  {
    if moves == [] {
      assert st.toks + [] == st.toks;
    } else {
      var head := NumberPart(num, white, first) + [moves[0].san] + ClockPart(moves[0].clock);
      var here := NumberTokens(num, white, first) + [MoveToken(Stripped(moves[0]))];
      assert moves[0] in moves;
      OneMoveEffect(moves[0], num, white, first, st);
      var num', rest := NextNumber(num, white), moves[1..];
      MapCons(Stripped, moves);
      assert StrippedMoves(moves)[1..] == StrippedMoves(rest);
      MovesEffect(rest, num', !white, false, Plus(st, here));
      EffectsAppend(head, MoveParts(rest, num', !white, false),
                    here, WrittenTokens(StrippedMoves(rest), num', !white, false), st);
    }
  }

  lemma ResultEffect(res: string, st: Scan)
    requires IsResult(res)
    ensures IsWord(res) && PartEffect(res, st) == st.(result := res)
  {
    TrimSolid(res);
  }

  /** Scanning the written parts gives the moves in order, without the numbers that their spellings
      may lead with, each with its own clock comment, and the result. */
  lemma WrittenScan(start: string, moves: seq<Move>, res: string)
    requires NumberedSans(moves) && IsResult(res)
    ensures GoodParts(Parts(start, moves, res))
    ensures var (num, white) := StartCounters(start);
      Tokenize(Join(Parts(start, moves, res), " "))
      == Scan(WrittenTokens(StrippedMoves(moves), num, white, true), res)
  {
    var (num, white) := StartCounters(start);
    var st := Scan([], "");
    MovesEffect(moves, num, white, true, st);
    var toks := WrittenTokens(StrippedMoves(moves), num, white, true);
    assert [] + toks == toks;
    ResultEffect(res, Scan(toks, ""));
    assert GoodParts([res]);
    ScanPartsAppend(MoveParts(moves, num, white, true), [res], st);
    assert ScanParts([res], Scan(toks, "")) == Scan(toks, res);
    ScanJoined(Parts(start, moves, res), st);
  }

  // ---------- the move number must fit ----------

  /** No move number that gets written exceeds a 64-bit int. */
  predicate NumbersFit(count: nat, num: int, white: bool) {
    count == 0 || num + (count - (if white then 1 else 0)) / 2 <= MAX_INT64
  }

  lemma {:induction false} FittingTokens(moves: seq<Move>, num: int, white: bool, first: bool)
    requires 0 <= num && NumbersFit(|moves|, num, white) && (first ==> num <= MAX_INT64)
    ensures WrittenTokens(moves, num, white, first) == MoveTokens(moves)
    decreases |moves|
  {
    if moves == [] {
    } else {
      if |moves| > 1 {
        FittingTokens(moves[1..], NextNumber(num, white), !white, false);
      }
      MapCons(MoveToken, moves);
    }
  }

  lemma {:induction false} WrittenCount(moves: seq<Move>, num: int, white: bool, first: bool)
    ensures |WrittenTokens(moves, num, white, first)| >= |moves|
    decreases |moves|
  {
    if moves == [] {
    } else {
      WrittenCount(moves[1..], NextNumber(num, white), !white, false);
    }
  }

  lemma {:induction false} OverflowingTokens(moves: seq<Move>, num: int, white: bool, first: bool)
    requires 0 <= num <= MAX_INT64 && !NumbersFit(|moves|, num, white)
    ensures |WrittenTokens(moves, num, white, first)| > |moves|
    decreases |moves|
  {
    if NextNumber(num, white) < 0 {
      assert !white && num == MAX_INT64 && |moves| >= 2;
      WrittenCount(moves[1..][1..], NextNumber(NextNumber(num, white), true), false, false);
    } else {
      OverflowingTokens(moves[1..], NextNumber(num, white), !white, false);
    }
  }

  /** The written moves come back, without leading numbers, exactly when the move numbers fit. */
  lemma MovetextRoundTrip(start: string, moves: seq<Move>, res: string)
    requires NumberedSans(moves) && IsResult(res)
    ensures var (num, white) := StartCounters(start);
      Tokenize(Join(Parts(start, moves, res), " ")) == Scan(MoveTokens(StrippedMoves(moves)), res)
      <==> NumbersFit(|moves|, num, white)
  {
    var (num, white) := StartCounters(start);
    WrittenScan(start, moves, res);
    if NumbersFit(|moves|, num, white) {
      FittingTokens(StrippedMoves(moves), num, white, true);
    } else {
      OverflowingTokens(StrippedMoves(moves), num, white, true);
    }
  }

  /** A FEN with its move number. */
  function NumberedFen(board: string, side: string, castling: string, ep: string, half: string, n: nat): string {
    board + " " + (side + " " + (castling + " " + (ep + " " + (half + " " + Decimal(n)))))
  }

  /** The start number and side that a FEN names; without its last fields the number is one. */
  lemma CountersRead(board: string, side: string, castling: string, ep: string, half: string, n: nat)
    requires 0 < n <= MAX_INT64
    requires forall w :: w in [board, side, castling, ep, half] ==> w != "" && NoSpace(w)
    ensures StartCounters(NumberedFen(board, side, castling, ep, half, n)) == (n, side != "b")
    ensures StartCounters(board + " " + side) == (1, side != "b")
  {
    var d := Decimal(n);
    assert NoSpace(d) by { assert forall i :: 0 <= i < |d| ==> IsDigit(d[i]); }
    assert board in [board, side, castling, ep, half] && side in [board, side, castling, ep, half];
    SixFields(board, side, castling, ep, half, d);
    AtoiDecimal(n);
    FieldsCons(board, side);
    FieldsCons(side, "");
  }

  lemma AtoiDecimal(n: nat)
    requires n <= MAX_INT64
    ensures Atoi(Decimal(n)) == Some(n)
  {
    ValueDecimal(n);
    assert IsDigit(Decimal(n)[0]);
  }

  function BlackToMoveFen(n: nat): string {
    NumberedFen("8", "b", "-", "-", "0", n)
  }

  /** With the move counter at the largest int, Black's move and White's reply do not come back. */
  lemma OverflowExample(black: Move, white: Move)
    requires WordSafe(black.san) && WordSafe(white.san)
    ensures Tokenize(Join(Parts(BlackToMoveFen(MAX_INT64), [black, white], "*"), " "))
      != Scan(MoveTokens([black, white]), "*")
  {
    CountersRead("8", "b", "-", "-", "0", MAX_INT64);
    SafeStripped([black, white]);
    MovetextRoundTrip(BlackToMoveFen(MAX_INT64), [black, white], "*");
  }

  // ---------- words of any kind ----------

  function TokenSans(toks: seq<Token>): (sans: seq<string>)
    ensures |sans| == |toks|
    ensures forall i :: 0 <= i < |toks| ==> sans[i] == toks[i].san
  {
    seq(|toks|, i requires 0 <= i < |toks| => toks[i].san)
  }

  /** The move that a word is scanned as; "" for a result and for a mere number. */
  function WordText(s: string): string {
    if IsResult(s) then "" else StripMoveNumber(s)
  }

  function WordSans(s: string): seq<string> {
    if WordText(s) == "" then [] else [WordText(s)]
  }

  /** A negative move number is scanned as a move. */
  function NumberSans(num: int, white: bool, first: bool): seq<string> {
    TokenSans(NumberTokens(num, white, first))
  }

  /** The texts of the moves that a written game of words is scanned as. */
  function WrittenSans(moves: seq<Move>, num: int, white: bool, first: bool): seq<string> {
    if moves == [] then []
    else
      NumberSans(num, white, first) + WordSans(moves[0].san)
      + WrittenSans(moves[1..], NextNumber(num, white), !white, false)
  }

  ghost predicate WordMoves(moves: seq<Move>) {
    forall m :: m in moves ==> IsWord(m.san) && Solid(m.san)
  }

  lemma WordEffect(w: string, st: Scan)
    requires IsWord(w) && Solid(w)
    ensures TokenSans(PartEffect(w, st).toks) == TokenSans(st.toks) + WordSans(w)
  {
    TrimSolid(w);
    assert !EndsWord(w[0]);
  }

  /** A clock comment changes no move. */
  lemma ClockTexts(clock: Option<int>, st: Scan)
    ensures GoodParts(ClockPart(clock))
    ensures TokenSans(ScanParts(ClockPart(clock), st).toks) == TokenSans(st.toks)
  {
    ClockPartEffect(Move("", "", "", clock), st);
    if clock.Some? {
      var p := ClockPart(clock)[0];
      assert ClockPart(clock) == [p] && p[0] == '{';
      assert ScanParts([p], st) == ScanParts([], PartEffect(p, st)) == PartEffect(p, st);
      CommentTexts(p[1..|p| - 1], st);
    }
  }

  lemma CommentTexts(body: string, st: Scan)
    ensures TokenSans(AddComment(st, body).toks) == TokenSans(st.toks)
  {
  }

  lemma NumberTexts(num: int, white: bool, first: bool, st: Scan)
    ensures GoodParts(NumberPart(num, white, first))
    ensures TokenSans(ScanParts(NumberPart(num, white, first), st).toks)
      == TokenSans(st.toks) + NumberSans(num, white, first)
  {
    NumberPartEffect(num, white, first, st);
    SansAppend(st.toks, NumberTokens(num, white, first));
  }

  /** What one written move adds to the scanned moves. */
  lemma MoveTexts(m: Move, num: int, white: bool, first: bool, st: Scan)
    requires IsWord(m.san) && Solid(m.san)
    ensures var parts := NumberPart(num, white, first) + [m.san] + ClockPart(m.clock);
      GoodParts(parts)
      && TokenSans(ScanParts(parts, st).toks)
         == TokenSans(st.toks) + (NumberSans(num, white, first) + WordSans(m.san))
  {
    var number, clock := NumberPart(num, white, first), ClockPart(m.clock);
    var st1 := Plus(st, NumberTokens(num, white, first));
    NumberPartEffect(num, white, first, st);
    SansAppend(st.toks, NumberTokens(num, white, first));
    WordEffect(m.san, st1);
    OneWord(m.san, st1);
    ClockTexts(m.clock, PartEffect(m.san, st1));
    ScanPartsAppend(number, [m.san], st);
    ScanPartsAppend(number + [m.san], clock, st);
    assert TokenSans(st.toks) + NumberSans(num, white, first) + WordSans(m.san)
        == TokenSans(st.toks) + (NumberSans(num, white, first) + WordSans(m.san));
  }

  lemma SansAppend(a: seq<Token>, b: seq<Token>)
    ensures TokenSans(a + b) == TokenSans(a) + TokenSans(b)
  {
  }

  /** Appending parts appends the texts of their moves. */
  lemma TextsAppend(a: seq<string>, b: seq<string>, ta: seq<string>, tb: seq<string>, st: Scan)
    requires GoodParts(a) && GoodParts(b)
    requires TokenSans(ScanParts(a, st).toks) == TokenSans(st.toks) + ta
    requires TokenSans(ScanParts(b, ScanParts(a, st)).toks) == TokenSans(ScanParts(a, st).toks) + tb
    ensures GoodParts(a + b) && TokenSans(ScanParts(a + b, st).toks) == TokenSans(st.toks) + (ta + tb)
  {
    ScanPartsAppend(a, b, st);
    ConcatThree(TokenSans(st.toks), ta, tb);
  }

  lemma {:induction false} MovesTexts(moves: seq<Move>, num: int, white: bool, first: bool, st: Scan)
    requires WordMoves(moves)
    ensures GoodParts(MoveParts(moves, num, white, first))
    ensures TokenSans(ScanParts(MoveParts(moves, num, white, first), st).toks)
      == TokenSans(st.toks) + WrittenSans(moves, num, white, first)
    decreases |moves|
  {
    if moves == [] {
    } else {
      var head := NumberPart(num, white, first) + [moves[0].san] + ClockPart(moves[0].clock);
      var num', rest := NextNumber(num, white), moves[1..];
      assert moves[0] in moves && forall m :: m in rest ==> m in moves;
      MoveTexts(moves[0], num, white, first, st);
      MovesTexts(rest, num', !white, false, ScanParts(head, st));
      TextsAppend(head, MoveParts(rest, num', !white, false), NumberSans(num, white, first) + WordSans(moves[0].san),
                  WrittenSans(rest, num', !white, false), st);
    }
  }

  /** Scanning a written game of words gives the texts of its words, and its result. */
  lemma WordsScan(start: string, moves: seq<Move>, res: string)
    requires WordMoves(moves) && IsResult(res)
    ensures var (num, white) := StartCounters(start);
      TokenSans(Tokenize(Join(Parts(start, moves, res), " ")).toks) == WrittenSans(moves, num, white, true)
    ensures Tokenize(Join(Parts(start, moves, res), " ")).result == res
  {
    var (num, white) := StartCounters(start);
    var st := Scan([], "");
    MovesTexts(moves, num, white, true, st);
    var st' := ScanParts(MoveParts(moves, num, white, true), st);
    ResultEffect(res, st');
    OneWord(res, st');
    ScanPartsAppend(MoveParts(moves, num, white, true), [res], st);
    ScanJoined(Parts(start, moves, res), st);
  }

  // ---------- the parts before a move ----------

  /** The number and side of the k-th move. */
  function CountersAt(num: int, white: bool, k: nat): (int, bool)
    decreases k
  {
    if k == 0 then (num, white) else CountersAt(NextNumber(num, white), !white, k - 1)
  }

  /** What is written from the spelling of m on, when rest is played behind it. */
  function PartsFrom(m: Move, rest: seq<Move>, num: int, white: bool): seq<string> {
    [m.san] + ClockPart(m.clock) + MoveParts(rest, NextNumber(num, white), !white, false)
  }

  lemma PartsCons(m: Move, rest: seq<Move>, num: int, white: bool, first: bool)
    ensures var head := NumberPart(num, white, first) + [m.san] + ClockPart(m.clock);
      MoveParts([m] + rest, num, white, first) == head + MoveParts(rest, NextNumber(num, white), !white, false)
    ensures MoveParts([m] + rest, num, white, first) == NumberPart(num, white, first) + PartsFrom(m, rest, num, white)
  {
    assert ([m] + rest)[1..] == rest;
    ConcatThree(NumberPart(num, white, first), [m.san], ClockPart(m.clock));
    ConcatThree(NumberPart(num, white, first), [m.san] + ClockPart(m.clock),
                MoveParts(rest, NextNumber(num, white), !white, false));
  }

  lemma SansCons(m: Move, rest: seq<Move>, num: int, white: bool, first: bool)
    ensures WrittenSans([m] + rest, num, white, first)
      == NumberSans(num, white, first) + WordSans(m.san) + WrittenSans(rest, NextNumber(num, white), !white, false)
  {
    assert ([m] + rest)[1..] == rest;
  }

  lemma WordCons(m: Move, rest: seq<Move>, num: int, white: bool, first: bool)
    requires WordText(m.san) != ""
    ensures WrittenSans([m] + rest, num, white, first)
      == NumberSans(num, white, first)
         + ([WordText(m.san)] + WrittenSans(rest, NextNumber(num, white), !white, false))
  {
    SansCons(m, rest, num, white, first);
    ConcatThree(NumberSans(num, white, first), [WordText(m.san)],
                WrittenSans(rest, NextNumber(num, white), !white, false));
  }

  lemma {:induction false} PartsSplit(a: seq<Move>, b: seq<Move>, num: int, white: bool, first: bool)
    ensures var (num', white') := CountersAt(num, white, |a|);
      MoveParts(a + b, num, white, first)
      == MoveParts(a, num, white, first) + MoveParts(b, num', white', first && a == [])
    decreases |a|
  {
    if a == [] {
      assert a + b == b;
    } else {
      var (num', white') := CountersAt(num, white, |a|);
      var m, t := a[0], a[1..];
      assert a == [m] + t && a + b == [m] + (t + b);
      PartsCons(m, t, num, white, first);
      PartsCons(m, t + b, num, white, first);
      PartsSplit(t, b, NextNumber(num, white), !white, false);
      ConcatThree(NumberPart(num, white, first) + [m.san] + ClockPart(m.clock),
                  MoveParts(t, NextNumber(num, white), !white, false), MoveParts(b, num', white', false));
    }
  }

  lemma {:induction false} SansSplit(a: seq<Move>, b: seq<Move>, num: int, white: bool, first: bool)
    ensures var (num', white') := CountersAt(num, white, |a|);
      WrittenSans(a + b, num, white, first)
      == WrittenSans(a, num, white, first) + WrittenSans(b, num', white', first && a == [])
    decreases |a|
  {
    if a == [] {
      assert a + b == b;
    } else {
      var (num', white') := CountersAt(num, white, |a|);
      var m, t := a[0], a[1..];
      assert a == [m] + t && a + b == [m] + (t + b);
      SansCons(m, t, num, white, first);
      SansCons(m, t + b, num, white, first);
      SansSplit(t, b, NextNumber(num, white), !white, false);
      ConcatThree(NumberSans(num, white, first) + WordSans(m.san),
                  WrittenSans(t, NextNumber(num, white), !white, false), WrittenSans(b, num', white', false));
    }
  }

  /** The texts of the moves that are scanned before the spelling behind those of a. */
  function SansBefore(a: seq<Move>, num: int, white: bool, first: bool): seq<string> {
    var (num', white') := CountersAt(num, white, |a|);
    WrittenSans(a, num, white, first) + NumberSans(num', white', first && a == [])
  }

  /** ... and behind it. */
  function SansAfter(rest: seq<Move>, num: int, white: bool, k: nat): seq<string> {
    var (num', white') := CountersAt(num, white, k);
    WrittenSans(rest, NextNumber(num', white'), !white', false)
  }

  lemma SansCut(a: seq<Move>, m: Move, rest: seq<Move>, num: int, white: bool, first: bool)
    requires WordText(m.san) != ""
    ensures WrittenSans(a + ([m] + rest), num, white, first)
      == SansBefore(a, num, white, first) + ([WordText(m.san)] + SansAfter(rest, num, white, |a|))
  {
    var (num', white') := CountersAt(num, white, |a|);
    SansSplit(a, [m] + rest, num, white, first);
    WordCons(m, rest, num', white', first && a == []);
    ConcatThree(WrittenSans(a, num, white, first), NumberSans(num', white', first && a == []),
                [WordText(m.san)] + WrittenSans(rest, NextNumber(num', white'), !white', false));
  }

  lemma PartsBefore(a: seq<Move>, num: int, white: bool, first: bool) returns (before: seq<string>)
    requires WordMoves(a)
    ensures var (num', white') := CountersAt(num, white, |a|);
      before == MoveParts(a, num, white, first) + NumberPart(num', white', first && a == [])
    ensures GoodParts(before)
    ensures TokenSans(ScanParts(before, Scan([], "")).toks) == SansBefore(a, num, white, first)
  {
    var (num', white') := CountersAt(num, white, |a|);
    var st := Scan([], "");
    var head, number := MoveParts(a, num, white, first), NumberPart(num', white', first && a == []);
    MovesTexts(a, num, white, first, st);
    NumberTexts(num', white', first && a == [], ScanParts(head, st));
    TextsAppend(head, number, WrittenSans(a, num, white, first), NumberSans(num', white', first && a == []), st);
    before := head + number;
  }

  lemma PartsCut(a: seq<Move>, m: Move, rest: seq<Move>, num: int, white: bool, first: bool)
    ensures var (num', white') := CountersAt(num, white, |a|);
      MoveParts(a + ([m] + rest), num, white, first)
      == MoveParts(a, num, white, first) + NumberPart(num', white', first && a == []) + PartsFrom(m, rest, num', white')
  {
    var (num', white') := CountersAt(num, white, |a|);
    PartsSplit(a, [m] + rest, num, white, first);
    PartsCons(m, rest, num', white', first && a == []);
    ConcatThree(MoveParts(a, num, white, first), NumberPart(num', white', first && a == []),
                PartsFrom(m, rest, num', white'));
  }

  lemma {:induction false} ScanBefore(parts: seq<string>, tail: seq<string>, st: Scan)
    requires GoodParts(parts) && tail != []
    ensures ScanFrom(Join(parts + tail, " "), st) == ScanFrom(Join(tail, " "), ScanParts(parts, st))
  {
    if parts == [] {
      assert parts + tail == tail;
    } else {
      var rest, st' := parts[1..] + tail, PartEffect(parts[0], st);
      var text := Join(rest, " ");
      assert parts + tail == [parts[0]] + rest;
      JoinCons(parts[0], rest, " ");
      assert parts[0] + " " + text == parts[0] + (" " + text);
      ScanPart(parts[0], " " + text, st);
      assert (" " + text)[1..] == text;
      assert ScanFrom(" " + text, st') == ScanFrom(text, st');
      ScanBefore(parts[1..], tail, st');
    }
  }

  /** Scanning a game up to the spelling of m, and from it on. */
  lemma ScanFromMove(start: string, a: seq<Move>, m: Move, rest: seq<Move>, res: string) returns (st: Scan)
    requires WordMoves(a)
    ensures var (num, white) := StartCounters(start);
      var (num', white') := CountersAt(num, white, |a|);
      TokenSans(st.toks) == SansBefore(a, num, white, true)
      && Tokenize(Join(Parts(start, a + ([m] + rest), res), " "))
         == ScanFrom(Join(PartsFrom(m, rest, num', white') + [res], " "), st)
  {
    var (num, white) := StartCounters(start);
    var (num', white') := CountersAt(num, white, |a|);
    var before := PartsBefore(a, num, white, true);
    PartsCut(a, m, rest, num, white, true);
    ConcatThree(before, PartsFrom(m, rest, num', white'), [res]);
    ScanBefore(before, PartsFrom(m, rest, num', white') + [res], Scan([], ""));
    st := ScanParts(before, Scan([], ""));
  }

  // ---------- which spellings survive ----------

  ghost predicate TokensWithin(toks: seq<Token>, size: nat) {
    forall t :: t in toks ==> |t.san| <= size
  }

  lemma TrimShorter(s: string)
    ensures |Trim(s)| <= |s|
    ensures |Trim(s)| == |s| ==> Trim(s) == s
  {
    TrimLeftShape(s);
    TrimRightShape(TrimLeft(s));
  }

  lemma {:induction false} TokensFit(s: string, st: Scan)
    ensures st.toks == [] ==> TokensWithin(ScanFrom(s, st).toks, |s|)
    ensures forall n: nat :: TokensWithin(st.toks, n) && |s| <= n ==> TokensWithin(ScanFrom(s, st).toks, n)
    decreases |s|
  {
    if s == "" {
    } else {
      var st', rest := StepEffect(s, st), s[StepLength(s)..];
      forall n: nat | TokensWithin(st.toks, n) && |s| <= n ensures TokensWithin(st'.toks, n) {
        StepTokens(s, st, n);
      }
      TokensFit(rest, st');
      assert st.toks == [] ==> TokensWithin(st.toks, |s|);
    }
  }

  lemma StepTokens(s: string, st: Scan, n: nat)
    requires s != "" && TokensWithin(st.toks, n) && |s| <= n
    ensures TokensWithin(StepEffect(s, st).toks, n)
  {
    if s[0] == '{' {
      CommentTokens(st, if IndexOf(s, '}') < 0 then s[1..] else s[1..IndexOf(s, '}')], n);
    } else if !(IsBlank(s[0]) || s[0] == ';' || s[0] == '(' || s[0] == '$') {
      WordTokens(st, s[..WordEnd(s)], n);
    }
  }

  lemma CommentTokens(st: Scan, body: string, n: nat)
    requires TokensWithin(st.toks, n)
    ensures TokensWithin(AddComment(st, body).toks, n)
  {
    if st.toks != [] { assert st.toks[|st.toks| - 1] in st.toks; }
  }

  lemma WordTokens(st: Scan, word: string, n: nat)
    requires TokensWithin(st.toks, n) && |word| <= n
    ensures TokensWithin(AddWord(st, word).toks, n)
  {
    TrimShorter(word);
    StripShorter(Trim(word));
  }

  lemma WordAlone(s: string)
    requires IsWord(s) && s[0] != '{'
    ensures Tokenize(s) == AddWord(Scan([], ""), s)
  {
    ScanPart(s, "", Scan([], ""));
    assert s + "" == s;
  }

  lemma StripShorter(w: string)
    ensures |StripMoveNumber(w)| <= |w|
    ensures StripMoveNumber(w) == w && w != "" ==> !IsDigit(w[0]) && CountDots(w) < |w|
  {
    TrimShorter(w);
    TrimShorter(w[CountDigits(w) + CountDots(w[CountDigits(w)..])..]);
  }

  /** A text whose first round does not take in all of it yields only shorter tokens. */
  lemma PartialStep(s: string)
    requires s != "" && (StepLength(s) < |s| || StepEffect(s, Scan([], "")).toks == [])
    ensures TokensWithin(Tokenize(s).toks, |s| - 1)
  {
    var st, k := Scan([], ""), StepLength(s);
    var st' := StepEffect(s, st);
    TokensFit(s[k..], st');
    if st'.toks != [] {
      TrimShorter(s[..k]);
      StripShorter(Trim(s[..k]));
      assert st'.toks == [Token(StripMoveNumber(Trim(s[..k])), "")];
      assert TokensWithin(st'.toks, |s| - 1);
    }
  }

  /** A text is scanned as one move with exactly its own spelling if and only if it is a safe
      word. */
  lemma SafeWordsExactly(s: string)
    ensures Tokenize(s) == Scan([Token(s, "")], "") <==> WordSafe(s)
  {
    if WordSafe(s) {
      SafeWordEffect(s, Scan([], ""));
      WordAlone(s);
    } else if Tokenize(s) == Scan([Token(s, "")], "") {
      SurvivorIsSafe(s);
    }
  }

  lemma SurvivorIsSafe(s: string)
    requires Tokenize(s) == Scan([Token(s, "")], "")
    ensures WordSafe(s)
  {
    var st := Scan([], "");
    assert s != "" by { assert Tokenize("").toks == []; }
    var k, st' := StepLength(s), StepEffect(s, st);
    assert Token(s, "") in Tokenize(s).toks;
    if k < |s| || st'.toks == [] {
      PartialStep(s);
      assert false;
    }
    assert k == |s| && s[k..] == "";
    assert ScanFrom(s, st) == ScanFrom(s[k..], st');
    WholeWord(s);
  }

  lemma WholeWord(s: string)
    requires s != "" && StepLength(s) == |s| && StepEffect(s, Scan([], "")).toks == [Token(s, "")]
    ensures WordSafe(s)
  {
    assert s[..|s|] == s;
    assert !(IsBlank(s[0]) || s[0] == ';' || s[0] == '(' || s[0] == '$' || s[0] == '{');
    assert WordEnd(s) == |s|;
    var w := Trim(s);
    TrimShape(s);
    TrimShorter(s);
    StripShorter(w);
    assert StepEffect(s, Scan([], "")).toks[0] == Token(s, "");
    assert w == s;
  }

  /** "0-0", which the save gate accepts as castling, loses its leading zero. */
  lemma ZeroCastlingLost()
    ensures !WordSafe("0-0") && Tokenize("0-0").toks == [Token("-0", "")]
  {
    WordAlone("0-0");
    TrimSolid("0-0");
    ZeroStripped();
  }

  lemma ZeroStripped()
    ensures StripMoveNumber("0-0") == "-0"
  {
    var s, w := "0-0", "-0";
    CountDigitsOf("0", w);
    assert "0" + w == s && CountDigits(s) == 1;
    assert s[1..] == w && CountDots(w) == 0;
    TrimSolid(w);
  }

  lemma ZeroNumbered()
    ensures Numbered("0-0") && StripMoveNumber("0-0") == "-0"
  {
    ZeroStripped();
  }

  // ---------- building the movetext ----------

  lemma PartsStep(moves: seq<Move>, i: nat, num: int, white: bool, before: seq<string>)
    requires i < |moves|
    ensures before + MoveParts(moves[i..], num, white, i == 0)
      == before + NumberPart(num, white, i == 0) + [moves[i].san] + ClockPart(moves[i].clock)
         + MoveParts(moves[i + 1..], NextNumber(num, white), !white, false)
  {
    assert moves[i..][0] == moves[i] && moves[i..][1..] == moves[i + 1..];
    ConcatFour(before, NumberPart(num, white, i == 0), [moves[i].san], ClockPart(moves[i].clock),
               MoveParts(moves[i + 1..], NextNumber(num, white), !white, false));
  }

  lemma ConcatFour(a: seq<string>, b: seq<string>, c: seq<string>, d: seq<string>, e: seq<string>)
    ensures a + (b + c + d + e) == a + b + c + d + e
  {
  }

  /** What the loop body appends for one move. */
  method AddMove(before: seq<string>, mv: Move, num: int, white: bool, first: bool) returns (parts: seq<string>)
    ensures parts == before + NumberPart(num, white, first) + [mv.san] + ClockPart(mv.clock)
  {
    parts := before;
    if white {
      parts := parts + [FormatInt(num) + "."];
    } else if first {
      parts := parts + [FormatInt(num) + "..."];
    }
    parts := parts + [mv.san];
    if mv.clock.Some? {
      parts := parts + ["{[%clk " + Clock.FormatClock(mv.clock.value) + "]}"];
    }
  }

  method BuildMovetext(start: string, moves: seq<Move>, res: string) returns (text: string)
    ensures text == Join(Wrapped(Parts(start, moves, res)), "\n")
  {
    var (num, white) := StartCounters(start);
    ghost var all := MoveParts(moves, num, white, true);
    var parts: seq<string> := [];
    for i := 0 to |moves|
      invariant parts + MoveParts(moves[i..], num, white, i == 0) == all
    {
      PartsStep(moves, i, num, white, parts);
      parts := AddMove(parts, moves[i], num, white, i == 0);
      if !white { num := Wrap64(num + 1); }
      white := !white;
    }
    assert moves[|moves|..] == [] && parts + [] == parts;
    parts := parts + [res];
    text := WrapMovetext(parts);
  }
}
