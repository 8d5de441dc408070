/** The board field of a FEN: the editor's codec (web/src/lib/fen.ts) and the two Go codecs
    (internal/recognition/positions.go, cmd/poseval/main.go); PGN section 16.1.3.1. */
module BoardField {
  import opened Text

  predicate IsPieceChar(c: char) {
    c == 'K' || c == 'Q' || c == 'R' || c == 'B' || c == 'N' || c == 'P'
    || c == 'k' || c == 'q' || c == 'r' || c == 'b' || c == 'n' || c == 'p'
  }

  predicate IsRun(c: char) { '1' <= c <= '8' }

  function RunLength(c: char): (n: nat)
    requires IsRun(c)
    ensures 1 <= n <= 8
  {
    c as int - '0' as int
  }

  function Dots(n: nat): (s: string)
    ensures |s| == n && forall i :: 0 <= i < n ==> s[i] == '.'
  {
    seq(n, (_: int) => '.')
  }

  /** A cell that the codecs keep apart from run lengths and rank separators. */
  predicate IsCell(c: char) { !IsRun(c) && c != '/' }

  ghost predicate Cells(s: string) { forall i :: 0 <= i < |s| ==> IsCell(s[i]) }

  /** Every cell is a piece letter or '.'. */
  ghost predicate BoardCells(s: string) { forall i :: 0 <= i < |s| ==> s[i] == '.' || IsPieceChar(s[i]) }

  // ---------- what a rank's text means ----------

  function ExpandChar(c: char): string {
    if IsRun(c) then Dots(RunLength(c)) else [c]
  }

  function ExpandRank(rank: string): string {
    if rank == "" then "" else ExpandRank(rank[..|rank| - 1]) + ExpandChar(rank[|rank| - 1])
  }

  function Concat(parts: seq<string>): string {
    if parts == [] then "" else Concat(parts[..|parts| - 1]) + parts[|parts| - 1]
  }

  function ExpandRanks(ranks: seq<string>): (cells: seq<string>)
    ensures |cells| == |ranks|
    ensures forall i :: 0 <= i < |ranks| ==> cells[i] == ExpandRank(ranks[i])
  {
    seq(|ranks|, i requires 0 <= i < |ranks| => ExpandRank(ranks[i]))
  }

  /** The cells that a board field describes. */
  function Expand(field: string): string {
    Concat(ExpandRanks(Split(field, '/')))
  }

  // ---------- encoding ----------

  function RunText(n: nat): string {
    if n == 0 then "" else Decimal(n)
  }

  /** A row without its last, still open run of empty squares, and that run's length. */
  function EncodeOpen(row: string): (string, nat) {
    if row == "" then ("", 0)
    else
      var (text, run) := EncodeOpen(row[..|row| - 1]);
      var c := row[|row| - 1];
      if c == '.' then (text, run + 1) else (text + RunText(run) + [c], 0)
  }

  function EncodeRow(row: string): string {
    EncodeOpen(row).0 + RunText(EncodeOpen(row).1)
  }

  /** Row r of a board of 64 cells. */
  function RowOf(cells: string, r: nat): (row: string)
    requires |cells| == 64 && r < 8
    ensures |row| == 8
  {
    cells[8 * r..8 * r + 8]
  }

  function EncodedRows(cells: string): (rows: seq<string>)
    requires |cells| == 64
    ensures |rows| == 8
    ensures forall r :: 0 <= r < 8 ==> rows[r] == EncodeRow(RowOf(cells, r))
  {
    seq(8, r requires 0 <= r < 8 => EncodeRow(RowOf(cells, r)))
  }

  function FieldOf(cells: string): string
    requires |cells| == 64
  {
    Join(EncodedRows(cells), "/")
  }

  lemma EncodeStep(row: string, i: nat)
    requires i < |row|
    ensures var (text, run) := EncodeOpen(row[..i]);
      EncodeOpen(row[..i + 1]) == if row[i] == '.' then (text, run + 1) else (text + RunText(run) + [row[i]], 0)
    ensures EncodeOpen(row[..i]).0 + "" == EncodeOpen(row[..i]).0
  {
    assert row[..i + 1][..i] == row[..i];
  }

  // ---------- the encoders ----------

  /** encodeRank. */
  method EncodeRank(row: string) returns (b: string)
    ensures b == EncodeRow(row)
  {
    b := "";
    var empties := 0;
    for i := 0 to |row|
      invariant (b, empties) == EncodeOpen(row[..i])
    {
      EncodeStep(row, i);
      var c := row[i];
      if c == '.' {
        empties := empties + 1;
        continue;
      }
      if empties > 0 {
        b := b + Decimal(empties);
        empties := 0;
      }
      b := b + [c];
    }
    assert row[..|row|] == row;
    if empties > 0 { b := b + Decimal(empties); }
  }

  lemma OneDigit(n: nat)
    requires 1 <= n <= 8
    ensures Decimal(n) == [('0' as int + n) as char]
  {
  }

  lemma {:induction false} OpenRunShort(row: string)
    ensures EncodeOpen(row).1 <= |row|
  {
    if row == "" {
    } else {
      OpenRunShort(row[..|row| - 1]);
    }
  }

  /** The inner loop of cellsToBoardField: a digit is one byte. */
  method EncodeCellsRow(cells: string, rank: nat) returns (b: string)
    requires |cells| == 64 && rank < 8
    ensures b == EncodeRow(RowOf(cells, rank))
  {
    b := "";
    var empty := 0;
    ghost var row := RowOf(cells, rank);
    for file := 0 to 8
      invariant (b, empty) == EncodeOpen(row[..file])
    {
      EncodeStep(row, file);
      OpenRunShort(row[..file]);
      var c := cells[rank * 8 + file];
      assert c == row[file];
      if c == '.' {
        empty := empty + 1;
        continue;
      }
      if empty > 0 {
        OneDigit(empty);
        b := b + [('0' as int + empty) as char];
        empty := 0;
      }
      b := b + [c];
    }
    assert row[..8] == row;
    OpenRunShort(row);
    if empty > 0 {
      OneDigit(empty);
      b := b + [('0' as int + empty) as char];
    }
  }

  method CellsToBoardField(cells: string) returns (b: string)
    requires |cells| == 64
    ensures b == FieldOf(cells)
  {
    b := "";
    ghost var rows := EncodedRows(cells);
    for rank := 0 to 8
      invariant b == if rank == 0 then "" else Join(rows[..rank], "/") + (if rank < 8 then "/" else "")
    {
      var text := EncodeCellsRow(cells, rank);
      JoinRows(rows, rank);
      b := b + text;
      if rank < 7 { b := b + "/"; }
    }
    assert rows[..8] == rows;
  }

  lemma JoinRows(rows: seq<string>, k: nat)
    requires k < |rows|
    ensures Join(rows[..k + 1], "/") == if k == 0 then rows[0] else Join(rows[..k], "/") + "/" + rows[k]
  {
    assert rows[..k + 1] == rows[..k] + [rows[k]];
    if k > 0 { JoinAppend(rows[..k], [rows[k]], "/"); }
  }

  /** The editor's board as cells: null and missing squares are empty. */
  function ToCells(board: seq<Option<char>>): (cells: string)
    ensures |cells| == 64
    ensures forall i :: 0 <= i < 64 ==> cells[i] == if i < |board| && board[i].Some? then board[i].value else '.'
  {
    seq(64, i requires 0 <= i < 64 => if i < |board| && board[i].Some? then board[i].value else '.')
  }

  /** No square holds the mark for an empty one. */
  predicate NoDotPieces(board: seq<Option<char>>) {
    forall i :: 0 <= i < |board| && board[i].Some? ==> board[i].value != '.'
  }

  method BoardRowToText(board: seq<Option<char>>, r: nat) returns (rank: string)
    requires r < 8 && NoDotPieces(board)
    ensures rank == EncodeRow(RowOf(ToCells(board), r))
  {
    rank := "";
    var empty := 0;
    ghost var row := RowOf(ToCells(board), r);
    for f := 0 to 8
      invariant (rank, empty) == EncodeOpen(row[..f])
    {
      EncodeStep(row, f);
      var piece := if r * 8 + f < |board| then board[r * 8 + f] else None;
      assert row[f] == ToCells(board)[8 * r + f];
      if piece.None? {
        empty := empty + 1;
      } else {
        if empty > 0 {
          rank := rank + Decimal(empty);
          empty := 0;
        }
        rank := rank + [piece.value];
      }
    }
    assert row[..8] == row;
    if empty > 0 { rank := rank + Decimal(empty); }
  }

  method BoardToField(board: seq<Option<char>>) returns (field: string)
    requires NoDotPieces(board)
    ensures field == FieldOf(ToCells(board))
  {
    var ranks: seq<string> := [];
    ghost var rows := EncodedRows(ToCells(board));
    for r := 0 to 8
      invariant ranks == rows[..r]
    {
      var rank := BoardRowToText(board, r);
      ranks := ranks + [rank];
    }
    assert rows[..8] == rows;
    field := Join(ranks, "/");
  }

  // ---------- the decoders ----------

  method ExpandBoard(board: string) returns (cells: string)
    ensures cells == Expand(board)
  {
    cells := "";
    var ranks := Split(board, '/');
    ghost var all := ExpandRanks(ranks);
    for k := 0 to |ranks|
      invariant cells == Concat(all[..k])
    {
      assert all[..k + 1][..k] == all[..k];
      cells := AppendRank(cells, ranks[k]);
    }
    assert all[..|ranks|] == all;
  }

  /** The inner loops over one rank. */
  method AppendRank(before: string, rank: string) returns (cells: string)
    ensures cells == before + ExpandRank(rank)
  {
    cells := before;
    for i := 0 to |rank|
      invariant cells == before + ExpandRank(rank[..i])
    {
      assert rank[..i + 1][..i] == rank[..i];
      var c := rank[i];
      if IsRun(c) {
        ghost var start := cells;
        for n := 0 to RunLength(c)
          invariant cells == start + Dots(n)
        {
          cells := cells + ['.'];
        }
        continue;
      }
      cells := cells + [c];
    }
    assert rank[..|rank|] == rank;
  }

  function Width(rank: string): nat { |ExpandRank(rank)| }

  ghost predicate ValidRank(rank: string) {
    (forall i :: 0 <= i < |rank| ==> IsRun(rank[i]) || IsPieceChar(rank[i])) && Width(rank) == 8
  }

  ghost predicate ValidRanks(ranks: seq<string>) {
    |ranks| == 8 && forall i :: 0 <= i < |ranks| ==> ValidRank(ranks[i])
  }

  ghost predicate ValidField(field: string) {
    ValidRanks(Split(field, '/'))
  }

  function CellOf(c: char): Option<char> {
    if c == '.' then None else Some(c)
  }

  function BoardOf(cells: string): (board: seq<Option<char>>)
    ensures |board| == |cells|
    ensures forall i :: 0 <= i < |cells| ==> board[i] == CellOf(cells[i])
  {
    seq(|cells|, i requires 0 <= i < |cells| => CellOf(cells[i]))
  }

  function EmptyBoard(): (board: seq<Option<char>>)
    ensures |board| == 64 && forall i :: 0 <= i < 64 ==> board[i] == None
  {
    seq(64, (_: int) => None)
  }

  /** The editor's reading of any string: the described board when its field is well formed, and
      the empty board otherwise. */
  ghost function ParsedBoard(fen: string): seq<Option<char>> {
    var field := Split(fen, ' ')[0];
    if fen != "" && ValidField(field) then BoardOf(Expand(field)) else EmptyBoard()
  }

  lemma {:induction false} WidthPrefix(rank: string, i: nat)
    requires i <= |rank|
    ensures Width(rank[..i]) <= Width(rank)
    ensures i < |rank| ==> Width(rank[..i]) < Width(rank)
    ensures ExpandRank(rank)[..Width(rank[..i])] == ExpandRank(rank[..i])
    decreases |rank| - i
  {
    if i == |rank| {
      assert rank[..i] == rank;
    } else {
      WidthPrefix(rank, i + 1);
      WidthStep(rank, i);
      var cells, longer := ExpandRank(rank), ExpandRank(rank[..i + 1]);
      assert cells[..|longer|][..Width(rank[..i])] == cells[..Width(rank[..i])];
    }
  }

  lemma WidthStep(rank: string, i: nat)
    requires i < |rank|
    ensures Width(rank[..i]) < Width(rank[..i + 1])
    ensures ExpandRank(rank[..i + 1])[..Width(rank[..i])] == ExpandRank(rank[..i])
  {
    assert rank[..i + 1][..i] == rank[..i];
  }

  /** The i-th square of a partly read rank. */
  function SquareAt(cells: string, i: nat): Option<char> {
    if i < |cells| then CellOf(cells[i]) else None
  }

  /** Row r of the board shows the cells read so far. */
  ghost predicate RowShows(board: seq<Option<char>>, r: nat, cells: string)
    requires |board| == 64 && r < 8
  {
    forall i :: 0 <= i < 8 ==> board[8 * r + i] == SquareAt(cells, i)
  }

  lemma RunShows(board: seq<Option<char>>, r: nat, cells: string, n: nat)
    requires |board| == 64 && r < 8 && RowShows(board, r, cells)
    ensures RowShows(board, r, cells + Dots(n))
  {
    forall i | 0 <= i < 8 ensures board[8 * r + i] == SquareAt(cells + Dots(n), i) {
      assert board[8 * r + i] == SquareAt(cells, i);
    }
  }

  lemma PieceShows(board: seq<Option<char>>, r: nat, cells: string, c: char)
    requires |board| == 64 && r < 8 && RowShows(board, r, cells) && |cells| < 8 && c != '.'
    ensures RowShows(board[8 * r + |cells| := Some(c)], r, cells + [c])
  {
    var board' := board[8 * r + |cells| := Some(c)];
    forall i | 0 <= i < 8 ensures board'[8 * r + i] == SquareAt(cells + [c], i) {
      assert board[8 * r + i] == SquareAt(cells, i);
    }
  }

  /** The two boards agree outside row r. */
  ghost predicate SameElsewhere(a: seq<Option<char>>, b: seq<Option<char>>, r: nat)
    requires |a| == |b| == 64
  {
    forall i :: 0 <= i < 64 && !(8 * r <= i < 8 * r + 8) ==> a[i] == b[i]
  }

  /** One rank: fills its eight squares, or reports that it is malformed. */
  method ParseRank(board: array<Option<char>>, r: nat, rank: string) returns (ok: bool)
    requires board.Length == 64 && r < 8 && RowShows(board[..], r, "")
    modifies board
    ensures ok <==> ValidRank(rank)
    ensures ok ==> RowShows(board[..], r, ExpandRank(rank))
    ensures SameElsewhere(board[..], old(board[..]), r)
  {
    var file := 0;
    for k := 0 to |rank|
      invariant file == Width(rank[..k])
      invariant forall i :: 0 <= i < k ==> IsRun(rank[i]) || IsPieceChar(rank[i])
      invariant RowShows(board[..], r, ExpandRank(rank[..k]))
      invariant SameElsewhere(board[..], old(board[..]), r)
    {
      ghost var cells := ExpandRank(rank[..k]);
      assert rank[..k + 1][..k] == rank[..k];
      WidthPrefix(rank, k);
      var ch := rank[k];
      if file > 8 { return false; }
      if IsRun(ch) {
        RunShows(board[..], r, cells, RunLength(ch));
        file := file + RunLength(ch);
      } else if IsPieceChar(ch) {
        if file >= 8 { return false; }
        PieceShows(board[..], r, cells, ch);
        ghost var before := board[..];
        board[8 * r + file] := Some(ch);
        assert board[..] == before[8 * r + file := Some(ch)];
        file := file + 1;
      } else {
        return false;
      }
    }
    assert rank[..|rank|] == rank;
    ok := file == 8;
  }

  /** The first k rows show their ranks, the others are still empty. */
  ghost predicate RowsShow(board: seq<Option<char>>, ranks: seq<string>, k: nat)
    requires |board| == 64 && |ranks| == 8 && k <= 8
  {
    && (forall r :: 0 <= r < k ==> RowShows(board, r, ExpandRank(ranks[r])))
    && (forall r :: k <= r < 8 ==> RowShows(board, r, ""))
  }

  lemma EmptyShows(ranks: seq<string>)
    requires |ranks| == 8
    ensures RowsShow(EmptyBoard(), ranks, 0)
  {
    forall r | 0 <= r < 8 ensures RowShows(EmptyBoard(), r, "") {
      forall i | 0 <= i < 8 ensures EmptyBoard()[8 * r + i] == SquareAt("", i) {}
    }
  }

  method ParseBoardField(fen: string) returns (board: array<Option<char>>)
    ensures fresh(board) && board[..] == ParsedBoard(fen)
  {
    board := new Option<char>[64](_ => None);
    assert board[..] == EmptyBoard();
    if fen == "" { return; }
    var field := Split(fen, ' ')[0];
    var ranks := Split(field, '/');
    if |ranks| != 8 { return; }
    EmptyShows(ranks);
    for r := 0 to 8
      invariant RowsShow(board[..], ranks, r)
      invariant forall i :: 0 <= i < r ==> ValidRank(ranks[i])
    {
      ghost var before := board[..];
      var ok := ParseRank(board, r, ranks[r]);
      if !ok {
        board := new Option<char>[64](_ => None);
        assert board[..] == EmptyBoard();
        return;
      }
      NextRow(before, board[..], ranks, r);
    }
    ShownBoard(board[..], ranks);
  }

  lemma NextRow(before: seq<Option<char>>, after: seq<Option<char>>, ranks: seq<string>, k: nat)
    requires |before| == |after| == 64 && |ranks| == 8 && k < 8
    requires RowsShow(before, ranks, k) && SameElsewhere(after, before, k)
    requires RowShows(after, k, ExpandRank(ranks[k]))
    ensures RowsShow(after, ranks, k + 1)
  {
    forall r | 0 <= r < k ensures RowShows(after, r, ExpandRank(ranks[r])) {
      KeepsRow(before, after, k, r, ExpandRank(ranks[r]));
    }
    forall r | k < r < 8 ensures RowShows(after, r, "") {
      KeepsRow(before, after, k, r, "");
    }
  }

  lemma KeepsRow(before: seq<Option<char>>, after: seq<Option<char>>, k: nat, r: nat, cells: string)
    requires |before| == |after| == 64 && k < 8 && r < 8 && r != k
    requires SameElsewhere(after, before, k) && RowShows(before, r, cells)
    ensures RowShows(after, r, cells)
  {
    forall i | 0 <= i < 8 ensures after[8 * r + i] == SquareAt(cells, i) {
      assert before[8 * r + i] == SquareAt(cells, i);
    }
  }

  /** Eight ranks of eight cells make sixty-four cells, rank by rank. */
  lemma {:induction false} ConcatEights(parts: seq<string>)
    requires forall i :: 0 <= i < |parts| ==> |parts[i]| == 8
    ensures |Concat(parts)| == 8 * |parts|
    ensures forall r, f :: 0 <= r < |parts| && 0 <= f < 8 ==> Concat(parts)[8 * r + f] == parts[r][f]
  {
    if parts == [] {
    } else {
      var init := parts[..|parts| - 1];
      ConcatEights(init);
      forall r, f | 0 <= r < |parts| && 0 <= f < 8 ensures Concat(parts)[8 * r + f] == parts[r][f] {
        if r < |init| { assert Concat(init)[8 * r + f] == init[r][f]; }
      }
    }
  }

  lemma ShownBoard(board: seq<Option<char>>, ranks: seq<string>)
    requires |board| == 64 && ValidRanks(ranks) && RowsShow(board, ranks, 8)
    ensures board == BoardOf(Concat(ExpandRanks(ranks)))
  {
    var parts := ExpandRanks(ranks);
    forall i | 0 <= i < 8 ensures |parts[i]| == 8 { assert ValidRank(ranks[i]); }
    ConcatEights(parts);
    forall i | 0 <= i < 64 ensures board[i] == BoardOf(Concat(parts))[i] {
      var r, f := i / 8, i % 8;
      assert RowShows(board, r, ExpandRank(ranks[r]));
      assert board[8 * r + f] == SquareAt(parts[r], f);
      assert Concat(parts)[8 * r + f] == parts[r][f];
    }
  }

  // ---------- round trips ----------

  lemma {:induction false} ExpandAppend(a: string, b: string)
    ensures ExpandRank(a + b) == ExpandRank(a) + ExpandRank(b)
    decreases |b|
  {
    if b == "" {
      assert a + b == a;
    } else {
      assert (a + b)[..|a + b| - 1] == a + b[..|b| - 1];
      ExpandAppend(a, b[..|b| - 1]);
    }
  }

  lemma RunExpands(n: nat)
    requires n <= 8
    ensures ExpandRank(RunText(n)) == Dots(n)
  {
    if n > 0 {
      OneDigit(n);
      var d := Decimal(n);
      assert d[..0] == "" && ExpandRank(d[..0]) == "";
      assert ExpandRank(d) == "" + Dots(n);
    }
  }

  /** Closing a run of empty squares. */
  lemma ClosedRun(text: string, run: nat)
    requires run <= 8 && Lacks(text, '/')
    ensures ExpandRank(text + RunText(run)) == ExpandRank(text) + Dots(run)
    ensures Lacks(text + RunText(run), '/')
  {
    RunExpands(run);
    ExpandAppend(text, RunText(run));
    if run > 0 { OneDigit(run); }
  }

  lemma ExpandSnoc(text: string, c: char)
    requires IsCell(c) && Lacks(text, '/')
    ensures ExpandRank(text + [c]) == ExpandRank(text) + [c] && Lacks(text + [c], '/')
  {
    assert (text + [c])[..|text|] == text;
  }

  /** A row of cells survives encoding and expanding. */
  lemma {:induction false} OpenExpands(row: string)
    requires Cells(row) && |row| <= 8
    ensures ExpandRank(EncodeOpen(row).0) + Dots(EncodeOpen(row).1) == row
    ensures Lacks(EncodeOpen(row).0, '/')
  {
    if row == "" {
    } else {
      var init, c := row[..|row| - 1], row[|row| - 1];
      OpenExpands(init);
      OpenRunShort(init);
      var (text, run) := EncodeOpen(init);
      assert row == init + [c];
      if c == '.' {
        assert Dots(run + 1) == Dots(run) + ['.'];
        assert ExpandRank(text) + (Dots(run) + ['.']) == ExpandRank(text) + Dots(run) + ['.'];
      } else {
        ClosedRun(text, run);
        ExpandSnoc(text + RunText(run), c);
        assert row + Dots(0) == row;
      }
    }
  }

  lemma RowExpands(row: string)
    requires Cells(row) && |row| <= 8
    ensures ExpandRank(EncodeRow(row)) == row && Lacks(EncodeRow(row), '/')
  {
    OpenExpands(row);
    OpenRunShort(row);
    ClosedRun(EncodeOpen(row).0, EncodeOpen(row).1);
  }

  lemma FieldSplits(cells: string)
    requires |cells| == 64 && Cells(cells)
    ensures Split(FieldOf(cells), '/') == EncodedRows(cells)
    ensures forall r :: 0 <= r < 8 ==> ExpandRank(EncodedRows(cells)[r]) == RowOf(cells, r)
  {
    var rows := EncodedRows(cells);
    forall r | 0 <= r < 8 ensures ExpandRank(rows[r]) == RowOf(cells, r) && Lacks(rows[r], '/') {
      RowExpands(RowOf(cells, r));
    }
    SplitJoin(rows, '/');
  }

  /** The Go codec: expanding an encoded board gives the board back. */
  lemma ExpandEncoded(cells: string)
    requires |cells| == 64 && Cells(cells)
    ensures Expand(FieldOf(cells)) == cells
  {
    FieldSplits(cells);
    RowsConcat(cells, ExpandRanks(EncodedRows(cells)));
  }

  /** The rows of a board, one after the other, are the board. */
  lemma RowsConcat(cells: string, parts: seq<string>)
    requires |cells| == 64 && |parts| == 8 && forall r :: 0 <= r < 8 ==> parts[r] == RowOf(cells, r)
    ensures Concat(parts) == cells
  {
    ConcatEights(parts);
    forall i | 0 <= i < 64 ensures Concat(parts)[i] == cells[i] {
      CellOfRow(cells, parts, i / 8, i % 8);
    }
  }

  lemma CellOfRow(cells: string, parts: seq<string>, r: nat, f: nat)
    requires |cells| == 64 && |parts| == 8 && r < 8 && f < 8 && parts[r] == RowOf(cells, r)
    requires |Concat(parts)| == 64 && Concat(parts)[8 * r + f] == parts[r][f]
    ensures Concat(parts)[8 * r + f] == cells[8 * r + f]
  {
  }

  lemma {:induction false} EncodedChars(row: string)
    requires BoardCells(row) && |row| <= 8
    ensures var text := EncodeOpen(row).0;
      forall i :: 0 <= i < |text| ==> IsRun(text[i]) || IsPieceChar(text[i])
  {
    if row == "" {
    } else {
      var init := row[..|row| - 1];
      EncodedChars(init);
      OpenRunShort(init);
      if EncodeOpen(init).1 > 0 { OneDigit(EncodeOpen(init).1); }
    }
  }

  lemma EncodedRowValid(row: string)
    requires BoardCells(row) && |row| == 8
    ensures ValidRank(EncodeRow(row))
  {
    EncodedChars(row);
    OpenRunShort(row);
    if EncodeOpen(row).1 > 0 { OneDigit(EncodeOpen(row).1); }
    assert Cells(row);
    RowExpands(row);
  }

  lemma EncodedFieldValid(cells: string)
    requires |cells| == 64 && BoardCells(cells)
    ensures ValidField(FieldOf(cells)) && Lacks(FieldOf(cells), ' ')
  {
    assert Cells(cells);
    FieldSplits(cells);
    RowsValid(cells);
    JoinChars(EncodedRows(cells));
  }

  lemma RowsValid(cells: string)
    requires |cells| == 64 && BoardCells(cells)
    ensures ValidRanks(EncodedRows(cells))
  {
    forall r | 0 <= r < 8 ensures ValidRank(EncodedRows(cells)[r]) {
      assert BoardCells(RowOf(cells, r));
      EncodedRowValid(RowOf(cells, r));
    }
  }

  /** An encoded board is a well-formed field, whatever follows it in the FEN. */
  lemma EncodedFieldParses(cells: string, rest: string)
    requires |cells| == 64 && BoardCells(cells)
    ensures ParsedBoard(FieldOf(cells)) == BoardOf(cells)
    ensures ParsedBoard(FieldOf(cells) + " " + rest) == BoardOf(cells)
  {
    EncodedFieldValid(cells);
    var field := FieldOf(cells);
    SplitWhole(field, ' ');
    SplitCut(field, rest, ' ');
    FieldShown(field, cells);
    FieldShown(field + " " + rest, cells);
  }

  /** The editor shows the board that the field of a FEN encodes. */
  lemma FieldShown(fen: string, cells: string)
    requires |cells| == 64 && BoardCells(cells) && Split(fen, ' ')[0] == FieldOf(cells)
    ensures ParsedBoard(fen) == BoardOf(cells)
  {
    assert Cells(cells);
    EncodedFieldValid(cells);
    ExpandEncoded(cells);
    EmptyInvalid();
  }

  lemma EmptyInvalid()
    ensures !ValidField("")
  {
    assert Split("", '/') == [""];
  }

  lemma {:induction false} JoinChars(ranks: seq<string>)
    requires forall i :: 0 <= i < |ranks| ==> ValidRank(ranks[i])
    ensures Lacks(Join(ranks, "/"), ' ')
  {
    if ranks == [] {
    } else {
      assert ValidRank(ranks[0]) && Lacks(ranks[0], ' ');
      JoinChars(ranks[1..]);
    }
  }

  /** The editor's codec: parsing a written board gives the board back. */
  lemma EditorRoundTrip(board: seq<Option<char>>)
    requires |board| == 64 && forall i :: 0 <= i < 64 && board[i].Some? ==> IsPieceChar(board[i].value)
    ensures ParsedBoard(FieldOf(ToCells(board))) == board
  {
    EncodedFieldParses(ToCells(board), "");
    assert BoardOf(ToCells(board)) == board;
  }

  // ---------- squares ----------

  /** Number(s[1]) of one character: only a digit from 1 to 8 names a rank. */
  function SquareToIndex(square: string): int {
    if |square| != 2 || !('a' <= square[0] <= 'h') || !IsRun(square[1]) then -1
    else (8 - (square[1] as int - '0' as int)) * 8 + (square[0] as int - 'a' as int)
  }

  function IndexToSquare(index: int): string {
    if index < 0 || index > 63 then ""
    else [('a' as int + index % 8) as char, ('0' as int + (8 - index / 8)) as char]
  }

  /** Squares and indices name each other. */
  lemma SquaresNameIndices(index: int, square: string)
    ensures 0 <= index < 64 ==> SquareToIndex(IndexToSquare(index)) == index
    ensures SquareToIndex(square) != -1 ==>
      0 <= SquareToIndex(square) < 64 && IndexToSquare(SquareToIndex(square)) == square
    ensures SquareToIndex(IndexToSquare(index)) == -1 <==> index < 0 || index > 63
  {
    if SquareToIndex(square) != -1 {
      var k := SquareToIndex(square);
      var f, d := square[0] as int - 'a' as int, square[1] as int - '0' as int;
      assert k / 8 == 8 - d && k % 8 == f;
      assert square == [square[0], square[1]];
    }
  }
}
