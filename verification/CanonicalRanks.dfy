/** The one text of a rank (internal/recognition/positions.go, cmd/poseval/main.go, web/src/lib/fen.ts;
    PGN section 16.1.3.1). */
module CanonicalRanks {
  import opened Text
  import opened BoardField

  /** No dot is written out, and no run is split in two. */
  ghost predicate Canonical(t: string) {
    && Lacks(t, '.')
    && forall i :: 0 <= i < |t| - 1 ==> !SplitRun(t, i)
  }

  predicate SplitRun(t: string, i: nat)
    requires i + 1 < |t|
  {
    '1' <= t[i] <= '8' && '1' <= t[i + 1] <= '8'
  }

  ghost predicate EndsOpen(t: string) {
    t != "" && IsRun(t[|t| - 1])
  }

  lemma CanonicalInit(t: string)
    requires t != "" && Canonical(t)
    ensures Canonical(t[..|t| - 1])
    ensures EndsOpen(t) ==> !EndsOpen(t[..|t| - 1])
  {
    var u := t[..|t| - 1];
    forall i | 0 <= i < |u| - 1 ensures !SplitRun(u, i) { assert !SplitRun(t, i); }
    if |t| > 1 { assert !SplitRun(t, |t| - 2); }
  }

  lemma EmptyAdded(row: string, n: nat)
    ensures EncodeOpen(row + Dots(n + 1)) == (EncodeOpen(row + Dots(n)).0, EncodeOpen(row + Dots(n)).1 + 1)
  {
    var longer := row + Dots(n + 1);
    assert longer[..|longer| - 1] == row + Dots(n) && longer[|longer| - 1] == '.';
  }

  lemma PieceTaken(u: string, c: char)
    requires c != '.' && !IsRun(c)
    ensures EncodeOpen(ExpandRank(u + [c])) == (EncodeRow(ExpandRank(u)) + [c], 0)
  {
    assert (u + [c])[..|u|] == u;
    var row := ExpandRank(u) + [c];
    assert row[..|row| - 1] == ExpandRank(u);
  }

  lemma {:induction false} OpenRun(t: string, n: nat)
    requires Canonical(t) && !EndsOpen(t)
    ensures EncodeOpen(ExpandRank(t) + Dots(n)) == (t, n)
    decreases |t|, n
  {
    if n > 0 {
      OpenRun(t, n - 1);
      EmptyAdded(ExpandRank(t), n - 1);
    } else if t != "" {
      var u, c := t[..|t| - 1], t[|t| - 1];
      CanonicalInit(t);
      assert t == u + [c] && ExpandRank(t) + Dots(0) == ExpandRank(t);
      PieceTaken(u, c);
      if EndsOpen(u) { ClosingRun(u); } else { OpenRun(u, 0); NoRun(u); }
    } else {
      assert ExpandRank(t) + Dots(n) == "";
    }
  }

  lemma NoRun(u: string)
    ensures ExpandRank(u) + Dots(0) == ExpandRank(u) && u + RunText(0) == u
  {
  }

  /** A text that ends with a run. */
  lemma {:induction false} ClosingRun(t: string)
    requires Canonical(t) && EndsOpen(t)
    ensures var (text, run) := EncodeOpen(ExpandRank(t)); text + RunText(run) == t
    decreases |t|, 0
  {
    var u, d := t[..|t| - 1], t[|t| - 1];
    CanonicalInit(t);
    OpenRun(u, RunLength(d));
    OneDigit(RunLength(d));
    assert t == u + [d];
  }

  /** A canonical text is what the encoders write for the row that it describes. */
  lemma CanonicalEncodes(t: string)
    requires Canonical(t)
    ensures EncodeRow(ExpandRank(t)) == t
  {
    if EndsOpen(t) {
      ClosingRun(t);
    } else {
      OpenRun(t, 0);
      assert ExpandRank(t) + Dots(0) == ExpandRank(t) && t + "" == t;
    }
  }

  /** What is written is canonical. */
  lemma {:induction false} OpenCanonical(row: string)
    requires |row| <= 8 && Cells(row)
    ensures var (text, run) := EncodeOpen(row); Canonical(text) && !EndsOpen(text) && run <= |row|
  {
    if row == "" {
    } else {
      var init, c := row[..|row| - 1], row[|row| - 1];
      OpenCanonical(init);
      var (text, run) := EncodeOpen(init);
      RunAdded(text, run);
      if c != '.' { PieceAdded(text + RunText(run), c); }
    }
  }

  lemma RunAdded(text: string, run: nat)
    requires Canonical(text) && !EndsOpen(text) && run <= 8
    ensures Canonical(text + RunText(run))
  {
    if run > 0 {
      OneDigit(run);
      var t := text + RunText(run);
      forall i | 0 <= i < |t| - 1 ensures !SplitRun(t, i) { if i < |text| - 1 { assert !SplitRun(text, i); } }
    } else {
      assert text + "" == text;
    }
  }

  lemma PieceAdded(text: string, c: char)
    requires Canonical(text) && !IsRun(c) && c != '.'
    ensures Canonical(text + [c]) && !EndsOpen(text + [c])
  {
    var t := text + [c];
    forall i | 0 <= i < |t| - 1 ensures !SplitRun(t, i) { if i < |text| - 1 { assert !SplitRun(text, i); } }
  }

  /** The encoders write the one canonical text that expands to the row. */
  lemma EncodedExactly(row: string, t: string)
    requires |row| <= 8 && Cells(row)
    ensures EncodeRow(row) == t <==> ExpandRank(t) == row && Canonical(t)
  {
    if ExpandRank(t) == row && Canonical(t) { CanonicalEncodes(t); }
    if EncodeRow(row) == t {
      OpenCanonical(row);
      RunAdded(EncodeOpen(row).0, EncodeOpen(row).1);
      RowExpands(row);
    }
  }
}
