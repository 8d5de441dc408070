/** When a recognised grid is returned as a legal position (internal/recognition/positions.go,
    chesskit/board.go), told by its squares. */
module GridLegality {
  import opened Text
  import opened BoardField
  import opened ChessRules
  import opened SanMoves
  import opened Positions
  import O = Orientation

  // ---------- counting one character ----------

  function PlacesOf(s: string, c: char): set<int> {
    set i | 0 <= i < |s| && s[i] == c
  }

  lemma {:induction false} CountIsPlaces(s: string, c: char)
    ensures CountChar(s, c) == |PlacesOf(s, c)|
  {
    if s == "" {
    } else {
      var init, n := s[..|s| - 1], |s| - 1;
      CountIsPlaces(init, c);
      if s[n] == c {
        assert PlacesOf(s, c) == PlacesOf(init, c) + {n};
      } else {
        assert PlacesOf(s, c) == PlacesOf(init, c);
      }
    }
  }

  /** Exactly one square holds this piece. */
  ghost predicate ExactlyOne(cells: string, c: char) {
    exists i :: OnlyAt(cells, c, i)
  }

  ghost predicate OnlyAt(cells: string, c: char, i: int) {
    0 <= i < |cells| && cells[i] == c && forall j :: 0 <= j < |cells| && cells[j] == c ==> j == i
  }

  lemma OneCounted(s: string, c: char)
    ensures CountChar(s, c) == 1 <==> ExactlyOne(s, c)
    ensures CountChar(s, c) == 0 <==> Lacks(s, c)
  {
    CountIsPlaces(s, c);
    var places := PlacesOf(s, c);
    if |places| == 1 {
      var i :| i in places;
      Singleton(places, i);
      assert OnlyAt(s, c, i);
    }
    if i :| OnlyAt(s, c, i) { assert places == {i}; }
    if |places| == 0 { assert forall i :: 0 <= i < |s| && s[i] == c ==> i in places; }
    if Lacks(s, c) { assert places == {}; }
  }

  lemma Singleton<T>(s: set<T>, x: T)
    requires |s| == 1 && x in s
    ensures s == {x}
  {
    assert |s - {x}| == 0;
  }

  // ---------- encoding keeps the pieces ----------

  lemma CountRun(text: string, run: nat, c: char)
    requires run <= 8 && !IsRun(c)
    ensures CountChar(text + RunText(run), c) == CountChar(text, c)
  {
    if run > 0 {
      OneDigit(run);
      CountSnoc(text, RunText(run)[0], c);
      assert RunText(run) == [RunText(run)[0]];
    } else {
      assert text + "" == text;
    }
  }

  lemma CountSnoc(s: string, d: char, c: char)
    ensures CountChar(s + [d], c) == CountChar(s, c) + if d == c then 1 else 0
  {
    assert (s + [d])[..|s|] == s;
  }

  lemma {:induction false} CountOpen(row: string, c: char)
    requires |row| <= 8 && BoardCells(row) && IsPieceChar(c)
    ensures CountChar(EncodeOpen(row).0, c) == CountChar(row, c)
  {
    if row == "" {
    } else {
      var init, d := row[..|row| - 1], row[|row| - 1];
      CountOpen(init, c);
      OpenRunShort(init);
      if d != '.' {
        var (text, run) := EncodeOpen(init);
        CountRun(text, run, c);
        CountSnoc(text + RunText(run), d, c);
      }
    }
  }

  lemma CountRow(row: string, c: char)
    requires |row| <= 8 && BoardCells(row) && IsPieceChar(c)
    ensures CountChar(EncodeRow(row), c) == CountChar(row, c)
  {
    CountOpen(row, c);
    OpenRunShort(row);
    CountRun(EncodeOpen(row).0, EncodeOpen(row).1, c);
  }

  lemma {:induction false} CountConcats(a: seq<string>, b: seq<string>, c: char)
    requires |a| == |b| && forall i :: 0 <= i < |a| ==> CountChar(a[i], c) == CountChar(b[i], c)
    ensures CountChar(Concat(a), c) == CountChar(Concat(b), c)
  {
    if a == [] {
    } else {
      var n := |a| - 1;
      CountConcats(a[..n], b[..n], c);
      CountConcat(Concat(a[..n]), a[n], c);
      CountConcat(Concat(b[..n]), b[n], c);
    }
  }

  function RowsOf(cells: string): (rows: seq<string>)
    requires |cells| == 64
    ensures |rows| == 8 && forall r :: 0 <= r < 8 ==> rows[r] == RowOf(cells, r)
  {
    seq(8, r requires 0 <= r < 8 => RowOf(cells, r))
  }

  lemma CountBoard(cells: string, c: char)
    requires IsBoard(cells) && IsPieceChar(c)
    ensures CountChar(Concat(EncodedRows(cells)), c) == CountChar(cells, c)
    ensures forall r :: 0 <= r < 8 ==> CountChar(EncodedRows(cells)[r], c) == CountChar(RowOf(cells, r), c)
  {
    forall r | 0 <= r < 8 ensures CountChar(EncodedRows(cells)[r], c) == CountChar(RowsOf(cells)[r], c) {
      assert BoardCells(RowOf(cells, r));
      CountRow(RowOf(cells, r), c);
    }
    CountConcats(EncodedRows(cells), RowsOf(cells), c);
    RowsConcat(cells, RowsOf(cells));
  }

  // ---------- the written position ----------

  lemma FirstField(fen: string, field: string)
    requires BoardText(fen) == field && field != "" && NoSpace(field)
    ensures BoardPart(fen) == field
  {
    var k := IndexOf(fen, ' ');
    if k < 0 {
      SplitWhole(fen, ' ');
      FieldsCons(fen, "");
    } else {
      var a, b := fen[..k], fen[k + 1..];
      assert fen == a + [' '] + b;
      SplitWhole(a, ' ');
      SplitCut(a, b, ' ');
      FieldsCons(a, b);
      assert fen == a + " " + b;
    }
  }

  lemma FieldVisible(cells: string)
    requires IsBoard(cells)
    ensures FieldOf(cells) != "" && NoSpace(FieldOf(cells))
  {
    var rows := EncodedRows(cells);
    forall t | t in rows ensures NoSpace(t) {
      var r :| 0 <= r < 8 && t == rows[r];
      assert BoardCells(RowOf(cells, r));
      O.RowNoSpace(RowOf(cells, r));
    }
    O.JoinNoSpace(rows);
    O.JoinNotEmpty(rows);
  }

  /** One king a side, and no pawn on the first or last rank. */
  ghost predicate Plausible(cells: string)
    requires |cells| == 64
  {
    && ExactlyOne(cells, 'K') && ExactlyOne(cells, 'k')
    && forall i :: 0 <= i < 8 || 56 <= i < 64 ==> cells[i] != 'P' && cells[i] != 'p'
  }

  lemma OuterRanks(cells: string, c: char)
    requires IsBoard(cells) && IsPieceChar(c)
    ensures Lacks(EncodedRows(cells)[0], c) <==> forall i :: 0 <= i < 8 ==> cells[i] != c
    ensures Lacks(EncodedRows(cells)[7], c) <==> forall i :: 56 <= i < 64 ==> cells[i] != c
  {
    CountBoard(cells, c);
    OneCounted(EncodedRows(cells)[0], c);
    OneCounted(EncodedRows(cells)[7], c);
    OneCounted(RowOf(cells, 0), c);
    OneCounted(RowOf(cells, 7), c);
    assert forall i :: 0 <= i < 8 ==> cells[i] == RowOf(cells, 0)[i];
    assert forall i :: 56 <= i < 64 ==> cells[i] == RowOf(cells, 7)[i - 56];
    assert forall j :: 0 <= j < 8 ==> RowOf(cells, 7)[j] == cells[56 + j];
  }

  lemma KingsCounted(cells: string)
    requires IsBoard(cells)
    ensures CountChar(Concat(EncodedRows(cells)), 'K') == 1 <==> ExactlyOne(cells, 'K')
    ensures CountChar(Concat(EncodedRows(cells)), 'k') == 1 <==> ExactlyOne(cells, 'k')
  {
    CountBoard(cells, 'K');
    CountBoard(cells, 'k');
    OneCounted(cells, 'K');
    OneCounted(cells, 'k');
  }

  lemma WrittenRanks(r: Rules, fen: string, cells: string)
    requires BoardLaw(r) && IsBoard(cells) && fen != "" && BoardText(fen) == FieldOf(cells)
    requires ReadFen(r, fen).Some?
    ensures Split(BoardPart(r.write(ReadFen(r, fen).value)), '/') == EncodedRows(cells)
  {
    assert r.read(fen).Some?;
    FieldVisible(cells);
    FirstField(r.write(ReadFen(r, fen).value), FieldOf(cells));
    FieldSplits(cells);
  }

  lemma RanksPlausible(cells: string)
    requires IsBoard(cells)
    ensures var ranks := EncodedRows(cells);
      Plausible(cells)
      <==> CountChar(Concat(ranks), 'K') == 1 && CountChar(Concat(ranks), 'k') == 1
           && NoPawns(ranks[0]) && NoPawns(ranks[7])
  {
    KingsCounted(cells);
    OuterRanks(cells, 'P');
    OuterRanks(cells, 'p');
  }

  /** A FEN with the board field of these squares is accepted exactly when it is readable and they are
      plausible. */
  lemma SaneExactly(r: Rules, fen: string, cells: string)
    requires BoardLaw(r) && IsBoard(cells) && fen != "" && BoardText(fen) == FieldOf(cells)
    ensures IsSane(r, fen) <==> ReadFen(r, fen).Some? && Plausible(cells)
  {
    if ReadFen(r, fen).Some? {
      WrittenRanks(r, fen, cells);
      RanksPlausible(cells);
    }
  }

  /** A grid is returned as legal if and only if the library reads its FEN and its squares, put the right
      way up, hold one king a side and no pawn on the outer ranks. */
  lemma LegalExactly(r: Rules, grid: seq<string>, sideToMove: string)
    requires BoardLaw(r)
    ensures |Concat(Oriented(Repaired(grid)))| == 64
    ensures Judged(r, AssembledFen(grid, sideToMove)).legal
      <==> ReadFen(r, AssembledFen(grid, sideToMove)).Some? && Plausible(Concat(Oriented(Repaired(grid))))
  {
    var cells := Concat(Oriented(Repaired(grid)));
    JudgedBoard(r, grid, sideToMove);
    AssembledText(grid, sideToMove, cells);
    SaneExactly(r, AssembledFen(grid, sideToMove), cells);
  }
}
