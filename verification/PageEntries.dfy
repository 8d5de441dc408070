/** What the review page shows for every ply, and what its edits make of the list, without the replay's
    own functions (web/src/lib/chess.ts, web/src/components/ReviewWorkbench.tsx). */
module PageEntries {
  import opened Text
  import opened ChessRules
  import opened SanMoves
  import opened Review

  // ---------- one entry ----------

  /** Where moves reduce like a text. */
  function Alike(moves: seq<string>, san: string): set<int> {
    set i | 0 <= i < |moves| && StripSan(moves[i]) == StripSan(san)
  }

  /** The moves that reduce like a text, in their order. */
  ghost predicate ListsAlike(moves: seq<string>, san: string, options: seq<string>) {
    && |options| == |Alike(moves, san)|
    && forall i :: 0 <= i < |moves| && StripSan(moves[i]) == StripSan(san) ==>
         |Alike(moves[..i], san)| < |options| && options[|Alike(moves[..i], san)|] == moves[i]
  }

  /** Nothing before k stopped the replay. */
  ghost predicate Reached(out: seq<EditMove>, k: nat)
    requires k <= |out|
  {
    forall j :: 0 <= j < k ==> out[j].legality.Legal?
  }

  /** What is carried over from the ply, and the side by its index. */
  ghost predicate Carries(start: string, k: nat, p: Ply, m: EditMove) {
    && m.san == (if Trim(p.san) == "" || Trim(p.san) == "?" then "?" else p.san)
    && m.clock == p.clock && m.recognizedText == p.recognizedText && m.confidence == p.confidence
    && (m.corrected <==> Trim(p.san) != Trim(p.recognizedText))
    && m.side == (if BlackStarts(start) != (k % 2 == 1) then "black" else "white")
  }

  /** The verdict on a ply: a placeholder waits, behind a stop everything else is illegal, and a move
      that cannot be played is ambiguous when several legal moves reduce like it. */
  ghost predicate Judged(c: Client, reached: bool, p: Ply, m: EditMove) {
    var placeholder := Trim(p.san) == "" || Trim(p.san) == "?";
    var played := reached && !placeholder && c.move(m.fenBefore, p.san).Some?;
    var several := reached && !placeholder && !played
      && StripSan(p.san) != "" && |Alike(c.moves(m.fenBefore), p.san)| > 1;
    && (m.legality.Legal? <==> played)
    && (m.legality.Ambiguous? <==> placeholder || several)
    && m.fenAfter == (if played then c.move(m.fenBefore, p.san).value else m.fenBefore)
    && if several then ListsAlike(c.moves(m.fenBefore), p.san, m.options) else m.options == []
  }

  lemma CandidatesAlike(c: Client, fen: string, san: string)
    requires StripSan(san) != ""
    ensures ListsAlike(c.moves(fen), san, Candidates(c, fen, san))
  {
    var moves, stripped := c.moves(fen), StripSan(san);
    var keep := (m: string) => StripSan(m) == stripped;
    FilterSize(moves, keep);
    assert Places(moves, keep) == Alike(moves, san);
    forall i | 0 <= i < |moves| && StripSan(moves[i]) == stripped
      ensures |Alike(moves[..i], san)| < |Filter(moves, keep)|
      ensures Filter(moves, keep)[|Alike(moves[..i], san)|] == moves[i]
    {
      FilterAt(moves, keep, i);
      assert Places(moves[..i], keep) == Alike(moves[..i], san);
    }
  }

  lemma PlyCarried(c: Client, start: string, st: State, k: nat, p: Ply)
    requires RebuildPly(c, start, st, k, p).Some?
    ensures Carries(start, k, p, RebuildPly(c, start, st, k, p).value)
  {
    SideFormula(k, start);
  }

  lemma PlyJudged(c: Client, start: string, st: State, k: nat, p: Ply)
    requires RebuildPly(c, start, st, k, p).Some?
    ensures var m := RebuildPly(c, start, st, k, p).value;
      m.fenBefore == st.fen && Judged(c, !st.blocked, p, m)
  {
    if IsPlaceholder(p.san) || st.blocked || StripSan(p.san) == "" {
    } else {
      CandidatesAlike(c, st.fen, p.san);
    }
  }

  lemma ReachedIff(out: seq<EditMove>, k: nat)
    requires k <= |out|
    ensures Reached(out, k) <==> k <= LegalCount(out)
  {
  }

  /** Every entry of the page: it starts where the one before it ended, carries its ply, and is judged
      in that position. */
  lemma PageShows(c: Client, startFen: string, plies: seq<Ply>, k: nat)
    requires Rebuilt(c, startFen, plies).Some? && k < |plies|
    ensures |Rebuilt(c, startFen, plies).value| == |plies|
    ensures var out, start := Rebuilt(c, startFen, plies).value, StartOf(startFen);
      && out[k].fenBefore == (if k == 0 then start else out[k - 1].fenAfter)
      && Carries(start, k, plies[k], out[k])
      && Judged(c, Reached(out, k), plies[k], out[k])
  {
    var out, start := Rebuilt(c, startFen, plies).value, StartOf(startFen);
    RebuiltEntry(c, startFen, plies, k);
    ReachedIff(out, k);
    PlyCarried(c, start, State(FenAt(start, out, k), LegalCount(out) < k), k, plies[k]);
    PlyJudged(c, start, State(FenAt(start, out, k), LegalCount(out) < k), k, plies[k]);
  }

  // ---------- edited lists ----------

  /** What the edits put at the index, and what they leave in front of it and behind it. */
  lemma EditedPlies(plies: seq<Ply>, index: nat, san: string)
    requires index < |plies|
    ensures |Replace(plies, index, san)| == |plies|
    ensures |InsertAfter(plies, index)| == |plies| + 1
    ensures |Remove(plies, index)| == |plies| - 1
    ensures Replace(plies, index, san)[index]
      == Ply(san, plies[index].clock, plies[index].recognizedText, 1.0)
    ensures InsertAfter(plies, index)[index + 1] == Ply("?", None, "", 1.0)
    ensures forall j :: 0 <= j < |plies| ==>
      && (j != index ==> Replace(plies, index, san)[j] == plies[j])
      && InsertAfter(plies, index)[if j <= index then j else j + 1] == plies[j]
      && (j != index ==> Remove(plies, index)[if j < index then j else j - 1] == plies[j])
  {
  }

  /** Removing takes an insertion back, and replacing by the old text with full confidence a
      replacement. */
  lemma EditsTakenBack(plies: seq<Ply>, index: nat, san: string)
    requires index < |plies|
    ensures Remove(InsertAfter(plies, index), index + 1) == plies
    ensures Replace(Replace(plies, index, san), index, plies[index].san)
      == plies[index := plies[index].(confidence := 1.0)]
  {
  }

  /** An inserted placeholder stops the replay, moves every later entry to the other side, and leaves
      its text, clock and confidence. */
  lemma InsertionShifts(c: Client, startFen: string, plies: seq<Ply>, index: nat, j: nat)
    requires ClientLawful(c) && c.loads(StartOf(startFen)) && index < j < |plies|
    ensures var a, b := Rebuilt(c, startFen, plies), Rebuilt(c, startFen, InsertAfter(plies, index));
      && a.Some? && b.Some? && |a.value| == |plies| && |b.value| == |plies| + 1
      && b.value[index + 1].legality.Ambiguous? && !b.value[j + 1].legality.Legal?
      && b.value[j + 1].side != a.value[j].side
      && b.value[j + 1].san == a.value[j].san && b.value[j + 1].clock == a.value[j].clock
      && b.value[j + 1].confidence == a.value[j].confidence
  {
    var inserted := InsertAfter(plies, index);
    EditsKeepPrefix(c, startFen, plies, index, "");
    EditedPlies(plies, index, "");
    ShiftedEntry(c, startFen, plies, inserted, j);
    PlaceholderStops(c, startFen, inserted, index + 1, j + 1);
  }

  /** The same ply one place later. */
  lemma ShiftedEntry(c: Client, startFen: string, a: seq<Ply>, b: seq<Ply>, j: nat)
    requires Rebuilt(c, startFen, a).Some? && Rebuilt(c, startFen, b).Some?
    requires j < |a| && j + 1 < |b| && a[j] == b[j + 1]
    ensures |Rebuilt(c, startFen, a).value| == |a| && |Rebuilt(c, startFen, b).value| == |b|
    ensures var m, m' := Rebuilt(c, startFen, a).value[j], Rebuilt(c, startFen, b).value[j + 1];
      m'.side != m.side && m'.san == m.san && m'.clock == m.clock && m'.confidence == m.confidence
  {
    PageShows(c, startFen, a, j);
    PageShows(c, startFen, b, j + 1);
    CarriedShifted(StartOf(startFen), j, a[j], Rebuilt(c, startFen, a).value[j], Rebuilt(c, startFen, b).value[j + 1]);
  }

  lemma CarriedShifted(start: string, j: nat, p: Ply, m: EditMove, m': EditMove)
    requires Carries(start, j, p, m) && Carries(start, j + 1, p, m')
    ensures m'.side != m.side && m'.san == m.san && m'.clock == m.clock && m'.confidence == m.confidence
  {
    var one, two := j % 2 == 1, (j + 1) % 2 == 1;
    assert one != two;
    assert "black"[0] != "white"[0];
  }

  lemma PlaceholderStops(c: Client, startFen: string, plies: seq<Ply>, s: nat, k: nat)
    requires Rebuilt(c, startFen, plies).Some? && s < k < |plies| && plies[s] == NewPly("?")
    ensures |Rebuilt(c, startFen, plies).value| == |plies|
    ensures var out := Rebuilt(c, startFen, plies).value;
      out[s].legality.Ambiguous? && !out[k].legality.Legal?
  {
    var out := Rebuilt(c, startFen, plies).value;
    PageShows(c, startFen, plies, s);
    PageShows(c, startFen, plies, k);
    PlaceholderWaits(c, Reached(out, s), out[s]);
    assert !Reached(out, k);
  }

  lemma PlaceholderWaits(c: Client, reached: bool, m: EditMove)
    requires Judged(c, reached, NewPly("?"), m)
    ensures m.legality.Ambiguous?
  {
    PlaceholderIs();
  }

  lemma PlaceholderIs()
    ensures Trim("?") == "?"
  {
    TrimSolid("?");
  }

  // ---------- dragging on the board ----------

  /** The list and the selected ply. */
  datatype Page = Page(plies: seq<Ply>, active: Option<nat>)

  /** The position that a drag is read in: behind the selected ply, otherwise at the tail. */
  function DragFen(startFen: string, page: Page, out: seq<EditMove>): string {
    match page.active
    case None => TailOf(StartOf(startFen), out)
    case Some(k) => if k < |out| then out[k].fenAfter else StartOf(startFen)
  }

  /** A drag that gave this move: the selected ply is replaced, otherwise the move goes behind the
      legal prefix and is selected. */
  function Dragged(page: Page, out: seq<EditMove>, san: string): Page
    requires |out| == |page.plies|
    requires page.active.Some? ==> page.active.value < |page.plies|
  {
    match page.active
    case None => Page(DragAppend(page.plies, out, san), Some(LegalCount(out)))
    case Some(k) => Page(Replace(page.plies, k, san), page.active)
  }

  /** With a reached ply selected, the dragged move is legal where it is put if and only if it can also
      be played in front of that ply. It was read behind it; that is the same for a ply that is not
      legal. */
  lemma SelectedDrag(c: Client, startFen: string, plies: seq<Ply>, k: nat, san: string)
    requires ClientLawful(c) && c.loads(StartOf(startFen))
    requires Rebuilt(c, startFen, plies).Some? && |Rebuilt(c, startFen, plies).value| == |plies|
    requires k < |plies| && Reached(Rebuilt(c, startFen, plies).value, k)
    requires var out := Rebuilt(c, startFen, plies).value;
      c.move(DragFen(startFen, Page(plies, Some(k)), out), san).Some? && Trim(san) != "" && Trim(san) != "?"
    ensures var out := Rebuilt(c, startFen, plies).value;
      var page := Dragged(Page(plies, Some(k)), out, san);
      var res := Rebuilt(c, startFen, page.plies);
      && res.Some? && |res.value| == |plies| && page.plies[k].san == san
      && (res.value[k].legality.Legal? <==> c.move(out[k].fenBefore, san).Some?)
      && (!out[k].legality.Legal? ==> res.value[k].legality.Legal?)
  {
    var out := Rebuilt(c, startFen, plies).value;
    var plies' := Replace(plies, k, san);
    EditLocal(c, startFen, plies, plies', k);
    var out' := Rebuilt(c, startFen, plies').value;
    PageShows(c, startFen, plies, k);
    PageShows(c, startFen, plies', k);
    forall j | 0 <= j < k ensures out'[j] == out[j] {
      assert out'[..k][j] == out[..k][j];
    }
    assert Reached(out', k);
  }

  /** The second of two drags on the board replaces the first: the list is as if only it had been
      dragged, and it is legal if and only if it could have been played in place of the first. */
  lemma SecondDrag(c: Client, startFen: string, plies: seq<Ply>, first: string, second: string)
    requires ClientLawful(c) && c.loads(StartOf(startFen))
    requires Rebuilt(c, startFen, plies).Some? && |Rebuilt(c, startFen, plies).value| == |plies|
    requires var out := Rebuilt(c, startFen, plies).value;
      var tail := TailOf(StartOf(startFen), out);
      && c.move(tail, first).Some? && Trim(first) != "" && Trim(first) != "?"
      && c.move(c.move(tail, first).value, second).Some? && Trim(second) != "" && Trim(second) != "?"
    ensures var out := Rebuilt(c, startFen, plies).value;
      var tail, n := TailOf(StartOf(startFen), out), LegalCount(out);
      var page := Dragged(Page(plies, None), out, first);
      var mid := Rebuilt(c, startFen, page.plies);
      && mid.Some? && |mid.value| == |page.plies| && n < |page.plies|
      && mid.value[n].legality.Legal? && DragFen(startFen, page, mid.value) == c.move(tail, first).value
      && var page' := Dragged(page, mid.value, second);
         var res := Rebuilt(c, startFen, page'.plies);
         && page'.plies == DragAppend(plies, out, second)
         && res.Some? && n < |res.value|
         && (res.value[n].legality.Legal? <==> c.move(tail, second).Some?)
  {
    var out := Rebuilt(c, startFen, plies).value;
    var n := LegalCount(out);
    var plies' := DragAppend(plies, out, first);
    FirstDrag(c, startFen, plies, first);
    SelectedDrag(c, startFen, plies', n, second);
    assert Replace(plies', n, second) == DragAppend(plies, out, second);
  }

  lemma FirstDrag(c: Client, startFen: string, plies: seq<Ply>, san: string)
    requires ClientLawful(c) && c.loads(StartOf(startFen))
    requires Rebuilt(c, startFen, plies).Some? && |Rebuilt(c, startFen, plies).value| == |plies|
    requires var tail := TailOf(StartOf(startFen), Rebuilt(c, startFen, plies).value);
      c.move(tail, san).Some? && Trim(san) != "" && Trim(san) != "?"
    ensures var out := Rebuilt(c, startFen, plies).value;
      var n, res := LegalCount(out), Rebuilt(c, startFen, DragAppend(plies, out, san));
      && res.Some? && |res.value| == |plies| + 1
      && Reached(res.value, n) && res.value[n].legality.Legal?
      && res.value[n].fenBefore == TailOf(StartOf(startFen), out)
      && res.value[n].fenAfter == c.move(TailOf(StartOf(startFen), out), san).value
  {
    var out := Rebuilt(c, startFen, plies).value;
    var n := LegalCount(out);
    var plies' := DragAppend(plies, out, san);
    DragGrowsPrefix(c, startFen, plies, san);
    var out' := Rebuilt(c, startFen, plies').value;
    PageShows(c, startFen, plies', n);
    if n > 0 { assert out'[..n][n - 1] == out[..n][n - 1]; }
  }

  /** Two moves, one for each side. */
  function TwoMoves(): Client {
    Client(fen => fen == "w" || fen == "b",
           (fen, san) =>
             if fen == "w" && san == "e4" then Some("b") else if fen == "b" && san == "e5" then Some("w") else None,
           fen => if fen == "w" then ["e4"] else ["e5"])
  }

  /** From an empty list, dragging "e4" and then the answer "e5" leaves the single ply "e5", which is
      illegal. */
  lemma AnswerReplacesMove()
    ensures ClientLawful(TwoMoves())
    ensures var page := Dragged(Page([], None), [], "e4");
      var mid := Rebuilt(TwoMoves(), "w", page.plies);
      && mid.Some? && |mid.value| == 1 && mid.value[0].legality.Legal?
      && TwoMoves().move(DragFen("w", page, mid.value), "e5").Some?
      && var page' := Dragged(page, mid.value, "e5");
         var res := Rebuilt(TwoMoves(), "w", page'.plies);
         && page'.plies == [NewPly("e5")]
         && res.Some? && |res.value| == 1 && res.value[0].legality.Illegal?
  {
    var c, none := TwoMoves(), [];
    assert Rebuilt(c, "w", none) == Some([]);
    TrimSolid("e4");
    TrimSolid("e5");
    SecondDrag(c, "w", none, "e4", "e5");
  }
}
