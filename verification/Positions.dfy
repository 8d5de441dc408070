/** From a recognised grid to a FEN (internal/recognition/positions.go, chesskit/board.go). A `char`
    of a grid row is one rune. */
module Positions {
  import opened Text
  import opened BoardField
  import opened ChessRules
  import opened SanMoves

  // ---------- repairing rows ----------

  /** What one glyph of a raw row contributes, before any limit. */
  function GlyphCells(g: char): string {
    if g == ' ' then "" else if IsRun(g) then Dots(RunLength(g)) else if IsPieceChar(g) then [g] else "."
  }

  /** The whole raw row, without any limit. */
  function FullRow(raw: string): string {
    if raw == "" then "" else FullRow(raw[..|raw| - 1]) + GlyphCells(raw[|raw| - 1])
  }

  function FirstEight(s: string): (t: string)
    ensures |t| <= 8
  {
    if |s| > 8 then s[..8] else s
  }

  /** The first eight cells of the full expansion, padded with empty squares. */
  function NormalRow(raw: string): (row: string)
    ensures |row| == 8
  {
    FirstEight(FullRow(raw)) + Dots(8 - |FirstEight(FullRow(raw))|)
  }

  lemma {:induction false} FullRowPrefix(raw: string, i: nat)
    requires i <= |raw|
    ensures FullRow(raw[..i]) <= FullRow(raw)
    decreases |raw| - i
  {
    if i < |raw| {
      FullRowPrefix(raw, i + 1);
      assert raw[..i + 1][..i] == raw[..i];
    } else {
      assert raw[..i] == raw;
    }
  }

  method NormalizeRow(raw: string) returns (row: string)
    ensures row == NormalRow(raw)
  {
    var cells := "";
    var k := 0;
    while k < |raw|
      invariant k <= |raw|
      invariant cells == FirstEight(FullRow(raw[..k]))
    {
      FullRowPrefix(raw, k);
      if |cells| >= 8 { break; }
      assert raw[..k + 1][..k] == raw[..k];
      var g := raw[k];
      k := k + 1;
      if g == ' ' { continue; }
      if IsRun(g) {
        cells := PadCells(cells, RunLength(g));
      } else if IsPieceChar(g) {
        cells := cells + [g];
      } else {
        cells := cells + ".";
      }
    }
    assert raw[..|raw|] == raw;
    assert cells == FirstEight(FullRow(raw));
    row := PadCells(cells, 8 - |cells|);
  }

  /** Appends up to n empty squares while there is room. */
  method PadCells(cells: string, n: nat) returns (out: string)
    requires |cells| <= 8
    ensures out == FirstEight(cells + Dots(n))
  {
    out := cells;
    var m := 0;
    while m < n && |out| < 8
      invariant m <= n && |out| <= 8
      invariant out == cells + Dots(m)
    {
      out := out + ".";
      m := m + 1;
    }
    if m < n { assert (cells + Dots(n))[..8] == cells + Dots(m); }
  }

  /** None when the grid has no rows. */
  function Repaired(grid: seq<string>): (rows: seq<string>)
    ensures |rows| == 8
    ensures forall i :: 0 <= i < 8 ==> rows[i] == if i < |grid| then NormalRow(grid[i]) else "........"
  {
    seq(8, i requires 0 <= i < 8 => if i < |grid| then NormalRow(grid[i]) else "........")
  }

  method RepairGrid(grid: seq<string>) returns (rows: Option<seq<string>>)
    ensures rows == if grid == [] then None else Some(Repaired(grid))
  {
    if |grid| == 0 { return None; }
    var out: seq<string> := [];
    for i := 0 to 8
      invariant out == Repaired(grid)[..i]
    {
      if i < |grid| {
        var row := NormalizeRow(grid[i]);
        out := out + [row];
      } else {
        out := out + ["........"];
      }
    }
    assert Repaired(grid)[..8] == Repaired(grid);
    return Some(out);
  }

  // ---------- orientation ----------

  function CountIf(row: string, white: bool): nat {
    if row == "" then 0
    else
      CountIf(row[..|row| - 1], white)
      + if (if white then 'A' <= row[|row| - 1] <= 'Z' else 'a' <= row[|row| - 1] <= 'z') then 1 else 0
  }

  /** White minus black pieces of a row. */
  function Balance(row: string): int {
    CountIf(row, true) - CountIf(row, false)
  }

  /** The balance of the rows from the i-th on, counted against White in the upper half. */
  function ScoreFrom(rows: seq<string>, half: nat, i: nat): int
    requires i <= |rows|
    decreases |rows| - i
  {
    if i == |rows| then 0
    else (if i < half then -Balance(rows[i]) else Balance(rows[i])) + ScoreFrom(rows, half, i + 1)
  }

  function Score(rows: seq<string>): int {
    ScoreFrom(rows, |rows| / 2, 0)
  }

  method WhiteOnTop(rows: seq<string>) returns (inverted: bool)
    ensures inverted <==> Score(rows) < 0
  {
    var whiteTop, whiteBottom, blackTop, blackBottom := 0, 0, 0, 0;
    for i := 0 to |rows|
      invariant (whiteBottom - whiteTop) + (blackTop - blackBottom) + ScoreFrom(rows, |rows| / 2, i) == Score(rows)
    {
      var top := i < |rows| / 2;
      var row := rows[i];
      var white, black := CountRow(row);
      if top {
        whiteTop, blackTop := whiteTop + white, blackTop + black;
      } else {
        whiteBottom, blackBottom := whiteBottom + white, blackBottom + black;
      }
    }
    var score := (whiteBottom - whiteTop) + (blackTop - blackBottom);
    return score < 0;
  }

  /** The inner loop over one row. */
  method CountRow(row: string) returns (white: nat, black: nat)
    ensures white == CountIf(row, true) && black == CountIf(row, false)
  {
    white, black := 0, 0;
    for k := 0 to |row|
      invariant white == CountIf(row[..k], true) && black == CountIf(row[..k], false)
    {
      assert row[..k + 1][..k] == row[..k];
      var c := row[k];
      if 'A' <= c <= 'Z' { white := white + 1; }
      else if 'a' <= c <= 'z' { black := black + 1; }
    }
    assert row[..|row|] == row;
  }

  function Flipped(rows: seq<string>): (out: seq<string>)
    ensures |out| == |rows|
    ensures forall i :: 0 <= i < |rows| ==> out[i] == rows[|rows| - 1 - i]
  {
    seq(|rows|, i requires 0 <= i < |rows| => rows[|rows| - 1 - i])
  }

  lemma ScoreOfEight(rows: seq<string>)
    requires |rows| == 8
    ensures Score(rows) == -Balance(rows[0]) - Balance(rows[1]) - Balance(rows[2]) - Balance(rows[3])
      + Balance(rows[4]) + Balance(rows[5]) + Balance(rows[6]) + Balance(rows[7])
  {
    assert ScoreFrom(rows, 4, 8) == 0;
    assert ScoreFrom(rows, 4, 7) == Balance(rows[7]);
    assert ScoreFrom(rows, 4, 6) == Balance(rows[6]) + Balance(rows[7]);
    assert ScoreFrom(rows, 4, 5) == Balance(rows[5]) + ScoreFrom(rows, 4, 6);
    assert ScoreFrom(rows, 4, 4) == Balance(rows[4]) + ScoreFrom(rows, 4, 5);
    assert ScoreFrom(rows, 4, 3) == -Balance(rows[3]) + ScoreFrom(rows, 4, 4);
    assert ScoreFrom(rows, 4, 2) == -Balance(rows[2]) + ScoreFrom(rows, 4, 3);
    assert ScoreFrom(rows, 4, 1) == -Balance(rows[1]) + ScoreFrom(rows, 4, 2);
  }

  /** Flipping the board negates its score. */
  lemma FlipNegates(rows: seq<string>)
    requires |rows| == 8
    ensures Score(Flipped(rows)) == -Score(rows)
  {
    ScoreOfEight(rows);
    ScoreOfEight(Flipped(rows));
  }

  /** The rows with White at the bottom. */
  function Oriented(rows: seq<string>): (out: seq<string>)
    ensures |out| == |rows|
  {
    if Score(rows) < 0 then Flipped(rows) else rows
  }

  method FlipInPlace(rows: array<string>)
    modifies rows
    ensures rows[..] == Flipped(old(rows[..]))
  {
    var n := rows.Length;
    var i, j := 0, n - 1;
    while i < j
      invariant 0 <= i <= n && j == n - 1 - i && (n > 0 ==> i <= j + 1)
      invariant forall k :: 0 <= k < i ==> rows[k] == old(rows[n - 1 - k]) && rows[n - 1 - k] == old(rows[k])
      invariant forall k :: i <= k <= j ==> rows[k] == old(rows[k])
    {
      rows[i], rows[j] := rows[j], rows[i];
      i, j := i + 1, j - 1;
    }
  }

  // ---------- the position ----------

  function CountChar(s: string, c: char): nat {
    if s == "" then 0 else CountChar(s[..|s| - 1], c) + if s[|s| - 1] == c then 1 else 0
  }

  function BoardPart(fen: string): string {
    var f := Fields(fen);
    if f == [] then "" else f[0]
  }

  ghost predicate NoPawns(rank: string) { Lacks(rank, 'P') && Lacks(rank, 'p') }

  /** A FEN that the library reads, with eight ranks, one king a side and no pawn on the first or
      last rank. */
  ghost predicate IsSane(r: Rules, fen: string) {
    && ReadFen(r, fen).Some?
    && var board := BoardPart(r.write(ReadFen(r, fen).value));
       var ranks := Split(board, '/');
       && |ranks| == 8
       && CountChar(Concat(ranks), 'K') == 1 && CountChar(Concat(ranks), 'k') == 1
       && NoPawns(ranks[0]) && NoPawns(ranks[7])
  }

  lemma {:induction false} CountConcat(a: string, b: string, c: char)
    ensures CountChar(a + b, c) == CountChar(a, c) + CountChar(b, c)
    decreases |b|
  {
    if b == "" {
      assert a + b == a;
    } else {
      assert (a + b)[..|a + b| - 1] == a + b[..|b| - 1];
      CountConcat(a, b[..|b| - 1], c);
    }
  }

  method CountKings(ranks: seq<string>) returns (white: nat, black: nat)
    ensures white == CountChar(Concat(ranks), 'K') && black == CountChar(Concat(ranks), 'k')
  {
    white, black := 0, 0;
    for i := 0 to |ranks|
      invariant white == CountChar(Concat(ranks[..i]), 'K') && black == CountChar(Concat(ranks[..i]), 'k')
    {
      assert ranks[..i + 1][..i] == ranks[..i];
      var rank := ranks[i];
      ghost var before := Concat(ranks[..i]);
      CountConcat(before, rank, 'K');
      CountConcat(before, rank, 'k');
      for j := 0 to |rank|
        invariant white == CountChar(before, 'K') + CountChar(rank[..j], 'K')
        invariant black == CountChar(before, 'k') + CountChar(rank[..j], 'k')
      {
        assert rank[..j + 1][..j] == rank[..j];
        if rank[j] == 'K' { white := white + 1; }
        else if rank[j] == 'k' { black := black + 1; }
      }
      assert rank[..|rank|] == rank;
    }
    assert ranks[..|ranks|] == ranks;
  }

  method NormalizeFen(r: Rules, fen: string) returns (norm: Option<string>)
    ensures norm.Some? <==> IsSane(r, fen)
    ensures norm.Some? ==> norm.value == r.write(ReadFen(r, fen).value)
  {
    var pos := ReadFen(r, fen);
    if pos.None? { return None; }
    var board := Split(BoardPart(r.write(pos.value)), '/');
    if |board| != 8 { return None; }
    var whiteKings, blackKings := CountKings(board);
    if whiteKings != 1 || blackKings != 1 { return None; }
    if IndexOf(board[0], 'P') >= 0 || IndexOf(board[0], 'p') >= 0 { return None; }
    if IndexOf(board[7], 'P') >= 0 || IndexOf(board[7], 'p') >= 0 { return None; }
    return Some(r.write(pos.value));
  }

  // ---------- assembling ----------

  function EncodeRows(rows: seq<string>): (fields: seq<string>)
    ensures |fields| == |rows|
    ensures forall i :: 0 <= i < |rows| ==> fields[i] == EncodeRow(rows[i])
  {
    seq(|rows|, i requires 0 <= i < |rows| => EncodeRow(rows[i]))
  }

  /** The board field for a grid. */
  function AssembledField(grid: seq<string>): string {
    Join(EncodeRows(Oriented(Repaired(grid))), "/")
  }

  function AssembledFen(grid: seq<string>, sideToMove: string): string {
    AssembledField(grid) + " " + (if sideToMove == "black" then "b" else "w") + " - - 0 1"
  }

  datatype Assembly = Assembly(fen: string, legal: bool)

  method OrientInPlace(rows: array<string>)
    modifies rows
    ensures rows[..] == Oriented(old(rows[..]))
  {
    var inverted := WhiteOnTop(rows[..]);
    if inverted { FlipInPlace(rows); }
  }

  method BuildField(rows: array<string>) returns (field: string)
    requires rows.Length == 8
    ensures field == Join(EncodeRows(rows[..]), "/")
  {
    var fields: seq<string> := [];
    ghost var all := EncodeRows(rows[..]);
    for i := 0 to 8
      invariant |fields| == i && forall k :: 0 <= k < i ==> fields[k] == all[k]
    {
      var field := EncodeRank(rows[i]);
      fields := fields + [field];
    }
    assert fields == all;
    field := Join(fields, "/");
  }

  /** What AssembleFEN returns for an assembled FEN. */
  ghost function Judged(r: Rules, assembled: string): Assembly {
    if IsSane(r, assembled) then Assembly(r.write(ReadFen(r, assembled).value), true)
    else Assembly(assembled, false)
  }

  method JudgeFen(r: Rules, assembled: string) returns (res: Assembly)
    ensures res == Judged(r, assembled)
  {
    var norm := NormalizeFen(r, assembled);
    if norm.None? { return Assembly(assembled, false); }
    return Assembly(norm.value, true);
  }

  /** A sane position is normalised; another readable grid keeps its best-effort FEN; an empty grid
      gives nothing. */
  method AssembleFen(r: Rules, grid: seq<string>, sideToMove: string) returns (res: Assembly)
    ensures res == if grid == [] then Assembly("", false) else Judged(r, AssembledFen(grid, sideToMove))
  {
    var repaired := RepairGrid(grid);
    if repaired.None? { return Assembly("", false); }
    var rows := new string[8](i requires 0 <= i < |repaired.value| => repaired.value[i]);
    assert rows[..] == repaired.value;
    OrientInPlace(rows);
    var boardField := BuildField(rows);
    var stm := if sideToMove == "black" then "b" else "w";
    var assembled := boardField + " " + stm + " - - 0 1";
    res := JudgeFen(r, assembled);
  }

  // ---------- what assembling keeps ----------

  lemma {:induction false} FullRowCells(raw: string)
    ensures BoardCells(FullRow(raw))
  {
    if raw == "" {
    } else {
      FullRowCells(raw[..|raw| - 1]);
    }
  }

  /** A repaired row holds piece letters and empty squares only. */
  lemma NormalRowCells(raw: string)
    ensures BoardCells(NormalRow(raw))
  {
    FullRowCells(raw);
  }

  /** On encoded rows the glyphs mean what the codec means. */
  lemma {:induction false} FullRowIsExpansion(rank: string)
    requires forall i :: 0 <= i < |rank| ==> IsRun(rank[i]) || IsPieceChar(rank[i])
    ensures FullRow(rank) == ExpandRank(rank)
  {
    if rank == "" {
    } else {
      FullRowIsExpansion(rank[..|rank| - 1]);
    }
  }

  /** normalizeRow undoes encodeRank. */
  lemma NormalRowInverts(row: string)
    requires BoardCells(row) && |row| == 8
    ensures NormalRow(EncodeRow(row)) == row
  {
    EncodedRowValid(row);
    FullRowIsExpansion(EncodeRow(row));
    assert Cells(row);
    RowExpands(row);
    assert row + Dots(0) == row;
  }

  lemma OrientedCells(grid: seq<string>)
    ensures forall i :: 0 <= i < 8 ==>
      BoardCells(Oriented(Repaired(grid))[i]) && |Oriented(Repaired(grid))[i]| == 8
  {
    var rows := Repaired(grid);
    forall i | 0 <= i < 8 ensures BoardCells(rows[i]) && |rows[i]| == 8 {
      if i < |grid| { NormalRowCells(grid[i]); }
    }
  }

  /** A corrected grid is never flipped again. */
  lemma OrientedStays(rows: seq<string>)
    requires |rows| == 8
    ensures Score(Oriented(rows)) >= 0 && Oriented(Oriented(rows)) == Oriented(rows)
  {
    FlipNegates(rows);
  }

  lemma EncodedRowsSplit(rows: seq<string>)
    requires |rows| == 8 && forall i :: 0 <= i < 8 ==> BoardCells(rows[i]) && |rows[i]| == 8
    ensures Split(Join(EncodeRows(rows), "/"), '/') == EncodeRows(rows)
    ensures Repaired(EncodeRows(rows)) == rows
  {
    var fields := EncodeRows(rows);
    forall i | 0 <= i < 8 ensures Lacks(fields[i], '/') && NormalRow(fields[i]) == rows[i] {
      assert BoardCells(rows[i]);
      assert Cells(rows[i]);
      RowExpands(rows[i]);
      NormalRowInverts(rows[i]);
    }
    SplitJoin(fields, '/');
  }

  lemma FieldIdempotent(grid: seq<string>)
    ensures AssembledField(Split(AssembledField(grid), '/')) == AssembledField(grid)
  {
    var rows := Oriented(Repaired(grid));
    OrientedCells(grid);
    EncodedRowsSplit(rows);
    OrientedStays(Repaired(grid));
  }

  /** The FEN that is returned has the board field of the grid, whether it was normalised or not. */
  lemma JudgedBoard(r: Rules, grid: seq<string>, sideToMove: string)
    requires BoardLaw(r)
    ensures BoardText(Judged(r, AssembledFen(grid, sideToMove)).fen) == AssembledField(grid)
    ensures var cells := Concat(Oriented(Repaired(grid)));
      IsBoard(cells) && AssembledField(grid) == BoardField.FieldOf(cells)
  {
    var rows := Oriented(Repaired(grid));
    OrientedCells(grid);
    RowsAsCells(rows);
    AssembledText(grid, sideToMove, Concat(rows));
    JudgedKeeps(r, AssembledFen(grid, sideToMove), Concat(rows));
  }

  lemma AssembledText(grid: seq<string>, sideToMove: string, cells: string)
    requires IsBoard(cells) && AssembledField(grid) == FieldOf(cells)
    ensures AssembledFen(grid, sideToMove) != "" && BoardText(AssembledFen(grid, sideToMove)) == FieldOf(cells)
  {
    var field, stm := FieldOf(cells), if sideToMove == "black" then "b" else "w";
    var rest := stm + " - - 0 1";
    EncodedFieldValid(cells);
    SplitWhole(field, ' ');
    SplitCut(field, rest, ' ');
    FenText(field, stm);
  }

  lemma FenText(field: string, stm: string)
    ensures field + " " + stm + " - - 0 1" == field + " " + (stm + " - - 0 1")
  {
  }

  lemma JudgedKeeps(r: Rules, fen: string, cells: string)
    requires BoardLaw(r) && IsBoard(cells) && fen != "" && BoardText(fen) == FieldOf(cells)
    ensures BoardText(Judged(r, fen).fen) == FieldOf(cells)
  {
    if IsSane(r, fen) { assert r.read(fen).Some?; }
  }

  /** Assembling the ranks of the returned FEN gives the same result. */
  lemma AssembleIdempotent(r: Rules, grid: seq<string>, sideToMove: string)
    requires BoardLaw(r)
    ensures var res := Judged(r, AssembledFen(grid, sideToMove));
      Judged(r, AssembledFen(Split(BoardText(res.fen), '/'), sideToMove)) == res
  {
    JudgedBoard(r, grid, sideToMove);
    FieldIdempotent(grid);
  }

  lemma FlipKeepsPieces(rows: seq<string>, c: char)
    requires |rows| == 8
    ensures CountChar(Concat(Flipped(rows)), c) == CountChar(Concat(rows), c)
  {
    CountRows(rows, c);
    CountRows(Flipped(rows), c);
  }

  lemma {:induction false} CountParts(parts: seq<string>, c: char)
    requires parts != []
    ensures CountChar(Concat(parts), c)
      == CountChar(Concat(parts[..|parts| - 1]), c) + CountChar(parts[|parts| - 1], c)
  {
    CountConcat(Concat(parts[..|parts| - 1]), parts[|parts| - 1], c);
  }

  lemma CountRows(rows: seq<string>, c: char)
    requires |rows| == 8
    ensures CountChar(Concat(rows), c) == CountChar(rows[0], c) + CountChar(rows[1], c) + CountChar(rows[2], c)
      + CountChar(rows[3], c) + CountChar(rows[4], c) + CountChar(rows[5], c) + CountChar(rows[6], c)
      + CountChar(rows[7], c)
  {
    var lower := CountFour(rows, c, 4);
    var upper := CountFour(rows, c, 8);
    assert rows[..8] == rows;
    assert CountChar(Concat(rows[..0]), c) == 0;
  }

  /** Four rows on top of what lies before them. */
  lemma CountFour(rows: seq<string>, c: char, k: nat) returns (sum: nat)
    requires 4 <= k <= |rows|
    ensures sum == CountChar(Concat(rows[..k]), c)
    ensures sum == CountChar(Concat(rows[..k - 4]), c) + CountChar(rows[k - 4], c) + CountChar(rows[k - 3], c)
      + CountChar(rows[k - 2], c) + CountChar(rows[k - 1], c)
  {
    CountUpTo(rows, c, k);
    CountUpTo(rows, c, k - 1);
    CountUpTo(rows, c, k - 2);
    CountUpTo(rows, c, k - 3);
    sum := CountChar(Concat(rows[..k]), c);
  }

  lemma CountUpTo(rows: seq<string>, c: char, k: nat)
    requires 0 < k <= |rows|
    ensures CountChar(Concat(rows[..k]), c) == CountChar(Concat(rows[..k - 1]), c) + CountChar(rows[k - 1], c)
  {
    assert rows[..k][..k - 1] == rows[..k - 1];
    CountParts(rows[..k], c);
  }

  /** Orientation keeps the number of every piece. */
  lemma OrientedKeepsPieces(grid: seq<string>, c: char)
    ensures CountChar(Concat(Oriented(Repaired(grid))), c) == CountChar(Concat(Repaired(grid)), c)
  {
    FlipKeepsPieces(Repaired(grid), c);
  }

  /** The editor shows exactly the recognised board, legal or not. */
  lemma EditorShowsAssembled(r: Rules, grid: seq<string>, sideToMove: string)
    requires BoardLaw(r)
    ensures |Concat(Oriented(Repaired(grid)))| == 64
    ensures ParsedBoard(Judged(r, AssembledFen(grid, sideToMove)).fen) == BoardOf(Concat(Oriented(Repaired(grid))))
  {
    JudgedBoard(r, grid, sideToMove);
    FieldShown(Judged(r, AssembledFen(grid, sideToMove)).fen, Concat(Oriented(Repaired(grid))));
  }

  /** The legal case occurs: the toy rules accept the board of their own positions. */
  lemma ToyIsSane()
    ensures IsSane(Toy(), ToyPrint(0)) && Judged(Toy(), ToyPrint(0)) == Assembly(ToyPrint(0), true)
  {
    ToyReadsBack(0);
    ToyFields(0);
    ToyRanks();
    assert ReadFen(Toy(), ToyPrint(0)) == Some(0);
    assert BoardPart(ToyPrint(0)) == TOY_BOARD;
  }

  lemma ToyRanks()
    ensures Split(TOY_BOARD, '/') == ["4k3", "8", "8", "8", "8", "8", "8", "4K3"]
    ensures CountChar(Concat(Split(TOY_BOARD, '/')), 'K') == 1 && CountChar(Concat(Split(TOY_BOARD, '/')), 'k') == 1
    ensures NoPawns("4k3") && NoPawns("4K3")
  {
    var upper, lower := ["4k3", "8", "8", "8"], ["8", "8", "8", "4K3"];
    var ranks := upper + lower;
    assert ranks == ["4k3", "8", "8", "8", "8", "8", "8", "4K3"];
    assert Join(ranks, "/") == TOY_BOARD by {
      JoinAppend(upper, lower, "/");
      assert Join(upper, "/") == "4k3/8/8/8" && Join(lower, "/") == "8/8/8/4K3";
    }
    assert forall l :: l in ranks ==> Lacks(l, '/');
    SplitJoin(ranks, '/');
    ToyKings(ranks);
  }

  lemma ToyKings(ranks: seq<string>)
    requires ranks == ["4k3", "8", "8", "8", "8", "8", "8", "4K3"]
    ensures CountChar(Concat(ranks), 'K') == 1 && CountChar(Concat(ranks), 'k') == 1
  {
    CountRows(ranks, 'K');
    CountRows(ranks, 'k');
    CountKing();
  }

  lemma CountKing()
    ensures CountChar("8", 'K') == 0 && CountChar("8", 'k') == 0
    ensures CountChar("4k3", 'K') == 0 && CountChar("4k3", 'k') == 1
    ensures CountChar("4K3", 'K') == 1 && CountChar("4K3", 'k') == 0
  {
    assert "4k3"[..2] == "4k" && "4k"[..1] == "4" && "4"[..0] == "";
    assert "4K3"[..2] == "4K" && "4K"[..1] == "4" && "8"[..0] == "";
    assert CountChar("4", 'K') == 0 && CountChar("4", 'k') == 0;
    assert CountChar("4k", 'K') == 0 && CountChar("4k", 'k') == 1;
    assert CountChar("4K", 'K') == 1 && CountChar("4K", 'k') == 0;
  }

  /** Eight rows of eight cells as one board. */
  lemma RowsAsCells(rows: seq<string>)
    requires |rows| == 8 && forall i :: 0 <= i < 8 ==> BoardCells(rows[i]) && |rows[i]| == 8
    ensures |Concat(rows)| == 64 && BoardCells(Concat(rows))
    ensures EncodedRows(Concat(rows)) == EncodeRows(rows)
  {
    var cells := Concat(rows);
    ConcatEights(rows);
    forall i | 0 <= i < 64 ensures cells[i] == '.' || IsPieceChar(cells[i]) {
      assert cells[8 * (i / 8) + i % 8] == rows[i / 8][i % 8];
      assert BoardCells(rows[i / 8]);
    }
    forall r | 0 <= r < 8 ensures RowOf(cells, r) == rows[r] {
      forall f | 0 <= f < 8 ensures RowOf(cells, r)[f] == rows[r][f] { assert cells[8 * r + f] == rows[r][f]; }
    }
  }
}
