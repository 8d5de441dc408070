/** Which way up a recognised grid is put, and what its glyphs and its side to move become
    (internal/recognition/positions.go), told by counting letters. */
module Orientation {
  import opened Text
  import opened BoardField
  import opened ChessRules
  import opened SanMoves
  import opened Positions

  // ---------- counting letters ----------

  predicate IsLetter(c: char, white: bool) {
    if white then 'A' <= c <= 'Z' else 'a' <= c <= 'z'
  }

  /** The columns of a row that hold a letter of one side. */
  function LettersIn(row: string, white: bool): set<int> {
    set j | 0 <= j < |row| && IsLetter(row[j], white)
  }

  /** The cells of the rows from lo to hi that hold a letter of one side. */
  function Army(rows: seq<string>, lo: nat, hi: nat, white: bool): set<(int, int)>
    requires lo <= hi <= |rows|
  {
    set i, j | lo <= i < hi && 0 <= j < |rows[i]| && IsLetter(rows[i][j], white) :: (i, j)
  }

  lemma {:induction false} CountIsSize(row: string, white: bool)
    ensures CountIf(row, white) == |LettersIn(row, white)|
  {
    if row == "" {
    } else {
      var init, n := row[..|row| - 1], |row| - 1;
      CountIsSize(init, white);
      if IsLetter(row[n], white) {
        assert LettersIn(row, white) == LettersIn(init, white) + {n};
      } else {
        assert LettersIn(row, white) == LettersIn(init, white);
      }
    }
  }

  function Mass(rows: seq<string>, lo: nat, hi: nat, white: bool): nat
    requires lo <= hi <= |rows|
    decreases hi
  {
    if lo == hi then 0 else Mass(rows, lo, hi - 1, white) + CountIf(rows[hi - 1], white)
  }

  /** These columns of the i-th row. */
  function InRow<T>(i: int, columns: set<T>): set<(int, T)> {
    set j | j in columns :: (i, j)
  }

  lemma {:induction false} InRowSize<T>(i: int, columns: set<T>)
    ensures |InRow(i, columns)| == |columns|
    decreases columns
  {
    if columns == {} {
      assert InRow(i, columns) == {};
    } else {
      var j :| j in columns;
      InRowSize(i, columns - {j});
      assert InRow(i, columns) == InRow(i, columns - {j}) + {(i, j)};
    }
  }

  lemma ArmyRow(rows: seq<string>, lo: nat, hi: nat, white: bool)
    requires lo < hi <= |rows|
    ensures var last := InRow(hi - 1, LettersIn(rows[hi - 1], white));
      Army(rows, lo, hi, white) == Army(rows, lo, hi - 1, white) + last && Army(rows, lo, hi - 1, white) !! last
  {
    var last := InRow(hi - 1, LettersIn(rows[hi - 1], white));
    var all, before := Army(rows, lo, hi, white), Army(rows, lo, hi - 1, white);
    forall i: int, j: int ensures (i, j) in all <==> (i, j) in before || (i, j) in last {}
    forall c | c in all ensures c in before + last { assert c == (c.0, c.1); }
  }

  lemma UnionSize<T>(all: set<T>, a: set<T>, b: set<T>)
    requires all == a + b && a !! b
    ensures |all| == |a| + |b|
  {
  }

  lemma {:induction false} MassIsSize(rows: seq<string>, lo: nat, hi: nat, white: bool)
    requires lo <= hi <= |rows|
    ensures Mass(rows, lo, hi, white) == |Army(rows, lo, hi, white)|
    decreases hi
  {
    if lo == hi {
      assert Army(rows, lo, hi, white) == {};
    } else {
      var columns := LettersIn(rows[hi - 1], white);
      MassIsSize(rows, lo, hi - 1, white);
      CountIsSize(rows[hi - 1], white);
      InRowSize(hi - 1, columns);
      ArmyRow(rows, lo, hi, white);
      UnionSize(Army(rows, lo, hi, white), Army(rows, lo, hi - 1, white), InRow(hi - 1, columns));
    }
  }

  lemma FourRows(rows: seq<string>, lo: nat, white: bool)
    requires lo + 4 <= |rows|
    ensures Mass(rows, lo, lo + 4, white)
      == CountIf(rows[lo], white) + CountIf(rows[lo + 1], white) + CountIf(rows[lo + 2], white)
         + CountIf(rows[lo + 3], white)
  {
    assert Mass(rows, lo, lo, white) == 0;
    assert Mass(rows, lo, lo + 1, white) == CountIf(rows[lo], white);
    assert Mass(rows, lo, lo + 2, white) == Mass(rows, lo, lo + 1, white) + CountIf(rows[lo + 1], white);
    assert Mass(rows, lo, lo + 3, white) == Mass(rows, lo, lo + 2, white) + CountIf(rows[lo + 2], white);
  }

  lemma ScoreIsMasses(rows: seq<string>)
    requires |rows| == 8
    ensures Positions.Score(rows)
      == Mass(rows, 4, 8, true) - Mass(rows, 0, 4, true) + Mass(rows, 0, 4, false) - Mass(rows, 4, 8, false)
  {
    ScoreOfEight(rows);
    FourRows(rows, 0, true);
    FourRows(rows, 0, false);
    FourRows(rows, 4, true);
    FourRows(rows, 4, false);
  }

  // ---------- the right way up ----------

  /** More letters stand in the half of the other side than in their own. */
  predicate StandsOnHead(rows: seq<string>)
    requires |rows| == 8
  {
    |Army(rows, 0, 4, true)| + |Army(rows, 4, 8, false)| > |Army(rows, 4, 8, true)| + |Army(rows, 0, 4, false)|
  }

  /** Eight rows are turned over if and only if White's letters in the upper half and Black's in the
      lower half outnumber the others. */
  lemma TurnedExactly(rows: seq<string>)
    requires |rows| == 8
    ensures Oriented(rows)
      == if StandsOnHead(rows) then [rows[7], rows[6], rows[5], rows[4], rows[3], rows[2], rows[1], rows[0]] else rows
  {
    ScoreIsMasses(rows);
    MassIsSize(rows, 0, 4, true);
    MassIsSize(rows, 0, 4, false);
    MassIsSize(rows, 4, 8, true);
    MassIsSize(rows, 4, 8, false);
    assert Flipped(rows) == [rows[7], rows[6], rows[5], rows[4], rows[3], rows[2], rows[1], rows[0]];
  }

  /** Both armies stand wholly in their own halves, White below. */
  ghost predicate Upright(rows: seq<string>) {
    && |rows| == 8
    && (forall i, j :: 0 <= i < 4 && 0 <= j < |rows[i]| ==> !IsLetter(rows[i][j], true))
    && (forall i, j :: 4 <= i < 8 && 0 <= j < |rows[i]| ==> !IsLetter(rows[i][j], false))
  }

  predicate LetterAt(rows: seq<string>, i: int, j: int) {
    && 0 <= i < |rows| && 0 <= j < |rows[i]|
    && (IsLetter(rows[i][j], true) || IsLetter(rows[i][j], false))
  }

  /** Armies in their own halves stay; the same grid upside down is put right, unless it is empty. */
  lemma UprightStays(rows: seq<string>)
    requires Upright(rows)
    ensures Oriented(rows) == rows
    ensures (exists i, j :: LetterAt(rows, i, j)) ==> Oriented(Flipped(rows)) == rows
  {
    TurnedExactly(rows);
    assert Army(rows, 0, 4, true) == {} && Army(rows, 4, 8, false) == {};
    if i, j :| LetterAt(rows, i, j) {
      SomeLetter(rows, i, j);
      ScoreIsMasses(rows);
      MassIsSize(rows, 0, 4, true);
      MassIsSize(rows, 0, 4, false);
      MassIsSize(rows, 4, 8, true);
      MassIsSize(rows, 4, 8, false);
      FlipNegates(rows);
      assert Flipped(Flipped(rows)) == rows;
    }
  }

  lemma SomeLetter(rows: seq<string>, i: int, j: int)
    requires Upright(rows) && LetterAt(rows, i, j)
    ensures |Army(rows, 4, 8, true)| + |Army(rows, 0, 4, false)| > 0
  {
    assert (i, j) in Army(rows, 4, 8, true) || (i, j) in Army(rows, 0, 4, false);
  }

  // ---------- glyphs ----------

  /** Neither a blank nor a run. */
  predicate IsGlyph(c: char) {
    c != ' ' && !('1' <= c <= '8')
  }

  lemma {:induction false} GlyphsRead(raw: string)
    requires forall k :: 0 <= k < |raw| ==> IsGlyph(raw[k])
    ensures |FullRow(raw)| == |raw|
    ensures forall k :: 0 <= k < |raw| ==> FullRow(raw)[k] == if raw[k] in "KQRBNPkqrbnp" then raw[k] else '.'
  {
    if raw == "" {
    } else {
      var init, g := raw[..|raw| - 1], raw[|raw| - 1];
      assert raw == init + [g];
      GlyphsRead(init);
      assert IsPieceChar(g) <==> g in "KQRBNPkqrbnp";
    }
  }

  /** Of a row of glyphs the first eight count: a piece letter is that piece, anything else and anything
      missing is an empty square. */
  lemma GlyphRow(raw: string, k: nat)
    requires (forall i :: 0 <= i < |raw| ==> IsGlyph(raw[i])) && k < 8
    ensures NormalRow(raw)[k] == if k < |raw| && raw[k] in "KQRBNPkqrbnp" then raw[k] else '.'
  {
    GlyphsRead(raw);
  }

  lemma FullRowSnoc(raw: string, g: char)
    ensures FullRow(raw + [g]) == FullRow(raw) + GlyphCells(g)
  {
    assert (raw + [g])[..|raw|] == raw;
  }

  lemma {:induction false} FullRowAppend(a: string, b: string)
    ensures FullRow(a + b) == FullRow(a) + FullRow(b)
    decreases |b|
  {
    if b == "" {
      assert a + b == a;
    } else {
      var init, g := b[..|b| - 1], b[|b| - 1];
      assert b == init + [g] && a + b == (a + init) + [g];
      FullRowSnoc(a + init, g);
      FullRowSnoc(init, g);
      FullRowAppend(a, init);
      ConcatThree(FullRow(a), FullRow(init), GlyphCells(g));
    }
  }

  /** Blanks are dropped; a run counts as that many empty squares. */
  lemma BlanksAndRuns(a: string, n: nat, b: string)
    requires 1 <= n <= 8
    ensures NormalRow(a + " " + b) == NormalRow(a + b)
    ensures NormalRow(a + [Digit10(n)] + b) == NormalRow(a + Dots(n) + b)
  {
    assert " "[..0] == "" && FullRow(" ") == FullRow("") == "";
    assert a + "" + b == a + b;
    SameMiddle(a, " ", "", b);
    RunOfDots(n);
    SameMiddle(a, [Digit10(n)], Dots(n), b);
  }

  lemma SameMiddle(a: string, x: string, y: string, b: string)
    requires FullRow(x) == FullRow(y)
    ensures NormalRow(a + x + b) == NormalRow(a + y + b)
  {
    FullRowAppend(a + x, b);
    FullRowAppend(a, x);
    FullRowAppend(a + y, b);
    FullRowAppend(a, y);
  }

  function Digit10(n: nat): char
    requires n <= 9
  {
    "0123456789"[n]
  }

  lemma RunOfDots(n: nat)
    requires 1 <= n <= 8
    ensures FullRow([Digit10(n)]) == Dots(n) == FullRow(Dots(n))
  {
    assert [Digit10(n)][..0] == "";
    assert IsRun(Digit10(n)) && RunLength(Digit10(n)) == n;
    GlyphsRead(Dots(n));
  }

  // ---------- the side to move ----------

  lemma FieldSolid(grid: seq<string>)
    ensures AssembledField(grid) != "" && NoSpace(AssembledField(grid))
  {
    var rows := Oriented(Repaired(grid));
    var fields := EncodeRows(rows);
    OrientedCells(grid);
    forall f | f in fields ensures NoSpace(f) {
      var i :| 0 <= i < |fields| && f == fields[i];
      RowNoSpace(rows[i]);
    }
    JoinNoSpace(fields);
    JoinNotEmpty(fields);
  }

  lemma RowNoSpace(row: string)
    requires BoardCells(row) && |row| == 8
    ensures NoSpace(EncodeRow(row))
  {
    EncodedRowValid(row);
    assert forall c: char :: IsRun(c) || IsPieceChar(c) ==> !IsSpace(c);
  }

  lemma JoinNotEmpty(parts: seq<string>)
    requires |parts| > 1
    ensures Join(parts, "/") != ""
  {
  }

  lemma {:induction false} JoinNoSpace(parts: seq<string>)
    requires forall p :: p in parts ==> NoSpace(p)
    ensures NoSpace(Join(parts, "/"))
  {
    if parts == [] {
    } else {
      assert parts[0] in parts && forall p :: p in parts[1..] ==> p in parts;
      JoinNoSpace(parts[1..]);
    }
  }

  /** The six fields of an assembled FEN. */
  lemma AssembledFields(grid: seq<string>, sideToMove: string)
    ensures Fields(AssembledFen(grid, sideToMove))
      == [AssembledField(grid), if sideToMove == "black" then "b" else "w", "-", "-", "0", "1"]
  {
    FieldSolid(grid);
    FenFields(AssembledField(grid), if sideToMove == "black" then "b" else "w");
  }

  lemma FenFields(field: string, stm: string)
    requires field != "" && NoSpace(field) && stm != "" && NoSpace(stm)
    ensures Fields(field + " " + stm + " - - 0 1") == [field, stm, "-", "-", "0", "1"]
  {
    SixFields(field, stm, "-", "-", "0", "1");
    FenSpaces(field, stm);
  }

  lemma FenSpaces(field: string, stm: string)
    ensures field + " " + stm + " - - 0 1" == field + " " + (stm + " " + ("-" + " " + ("-" + " " + ("0" + " " + "1"))))
  {
    assert " - - 0 1" == " " + ("-" + " " + ("-" + " " + ("0" + " " + "1")));
  }

  /** The returned FEN, normalised or not, has Black to move exactly when the model said so. */
  lemma SideKept(r: Rules, grid: seq<string>, sideToMove: string)
    requires Lawful(r)
    ensures BlackField(Judged(r, AssembledFen(grid, sideToMove)).fen) <==> sideToMove == "black"
  {
    AssembledSide(grid, sideToMove);
    JudgedSide(r, AssembledFen(grid, sideToMove));
  }

  lemma AssembledSide(grid: seq<string>, sideToMove: string)
    ensures AssembledFen(grid, sideToMove) != ""
    ensures BlackField(AssembledFen(grid, sideToMove)) <==> sideToMove == "black"
  {
    var stm := if sideToMove == "black" then "b" else "w";
    AssembledFields(grid, sideToMove);
    FieldsSide(AssembledFen(grid, sideToMove), AssembledField(grid), stm);
    assert "b"[0] != "w"[0];
  }

  lemma FieldsSide(fen: string, field: string, stm: string)
    requires Fields(fen) == [field, stm, "-", "-", "0", "1"]
    ensures BlackField(fen) <==> stm == "b"
  {
  }

  lemma JudgedSide(r: Rules, fen: string)
    requires Lawful(r) && fen != ""
    ensures BlackField(Judged(r, fen).fen) == BlackField(fen)
  {
    if IsSane(r, fen) { WrittenSide(r, fen); }
  }

  lemma WrittenSide(r: Rules, fen: string)
    requires Lawful(r) && fen != "" && r.read(fen).Some?
    ensures BlackField(r.write(r.read(fen).value)) == BlackField(fen)
  {
    var p := r.read(fen).value;
    assert r.read(r.write(p)) == Some(p);
  }
}
