/** The review page's live replay of a draft and its edits (web/src/lib/chess.ts,
    web/src/components/ReviewWorkbench.tsx). */
module Review {
  import opened Text
  import opened SanMoves
  import opened ChessRules

  // ---------- the browser's chess library ----------

  /** `loads`: a FEN is accepted. `move`: the FEN after a move, None when the library throws.
      `moves`: the legal moves. */
  datatype Client = Client(
    loads: string -> bool,
    move: (string, string) -> Option<string>,
    moves: string -> seq<string>)

  /** A move leads to a FEN that the library accepts again. */
  ghost predicate ClientLawful(c: Client) {
    forall fen: string, san: string :: c.loads(fen) && c.move(fen, san).Some? ==> c.loads(c.move(fen, san).value)
  }

  // ---------- spelling ----------

  predicate IsOriginChar(ch: char) { IsFile(ch) || IsRank(ch) }

  function DropPromotion(s: string): string {
    if |s| < 2 then s
    else if s[0] == '=' && IsPieceLetter(s[1]) && s[1] != 'K' then s[2..]
    else [s[0]] + DropPromotion(s[1..])
  }

  /** One origin character, when present, and then an 'x', go after a piece letter. */
  function DropOrigin(s: string): string {
    if s == "" || !IsPieceLetter(s[0]) then s
    else
      var a := if |s| > 1 && IsOriginChar(s[1]) then s[2..] else s[1..];
      [s[0]] + if a != "" && a[0] == 'x' then a[1..] else a
  }

  function StripSan(san: string): string {
    Trim(Without(DropOrigin(DropPromotion(Without(Without(san, '+'), '#'))), 'x'))
  }

  predicate IsPlaceholder(san: string) {
    Trim(san) == "" || Trim(san) == "?"
  }

  // ---------- plies ----------

  datatype Legality = Legal | Illegal | Ambiguous

  datatype Ply = Ply(san: string, clock: Option<int>, recognizedText: string, confidence: real)

  datatype EditMove = EditMove(
    san: string, clock: Option<int>, recognizedText: string, confidence: real, side: string,
    fenBefore: string, fenAfter: string, legality: Legality, corrected: bool, options: seq<string>)

  predicate BlackStarts(fen: string) {
    var parts := Split(fen, ' ');
    |parts| > 1 && parts[1] == "b"
  }

  function SideForPly(i: nat, startFen: string): string {
    if (i + (if BlackStarts(startFen) then 1 else 0)) % 2 == 0 then "white" else "black"
  }

  lemma SideFormula(i: nat, startFen: string)
    ensures SideForPly(i, startFen) == if BlackStarts(startFen) != (i % 2 == 1) then "black" else "white"
  {
  }

  /** The legal moves that share the stripped spelling of an input that could not be played. */
  function Candidates(c: Client, fen: string, san: string): seq<string> {
    var stripped := StripSan(san);
    if stripped == "" then [] else Filter(c.moves(fen), m => StripSan(m) == stripped)
  }

  datatype State = State(fen: string, blocked: bool)

  /** One ply of the replay. None: the library throws on the FEN itself. */
  function RebuildPly(c: Client, startFen: string, st: State, i: nat, p: Ply): Option<EditMove> {
    var corrected := Trim(p.san) != Trim(p.recognizedText);
    var open := EditMove(p.san, p.clock, p.recognizedText, p.confidence, SideForPly(i, startFen),
                         st.fen, st.fen, Illegal, corrected, []);
    if IsPlaceholder(p.san) then Some(open.(san := "?", legality := Ambiguous))
    else if st.blocked then Some(open)
    else if !c.loads(st.fen) then None
    else match c.move(st.fen, p.san)
      case Some(after) => Some(open.(fenAfter := after, legality := Legal))
      case None =>
        var options := Candidates(c, st.fen, p.san);
        if |options| > 1 then Some(open.(legality := Ambiguous, options := options)) else Some(open)
  }

  function After(st: State, m: EditMove): State {
    if m.legality.Legal? then State(m.fenAfter, st.blocked) else State(st.fen, true)
  }

  /** How one ply is replayed. */
  type Step = (State, nat, Ply) -> Option<EditMove>

  function StepOf(c: Client, startFen: string): Step {
    (st: State, i: nat, p: Ply) => RebuildPly(c, startFen, st, i, p)
  }

  function RebuildFrom(f: Step, st: State, i: nat, plies: seq<Ply>): Option<seq<EditMove>>
    decreases |plies|
  {
    if plies == [] then Some([])
    else match f(st, i, plies[0])
      case None => None
      case Some(m) =>
        match RebuildFrom(f, After(st, m), i + 1, plies[1..])
        case None => None
        case Some(rest) => Some([m] + rest)
  }

  function Rebuilt(c: Client, startFen: string, plies: seq<Ply>): Option<seq<EditMove>> {
    RebuildFrom(StepOf(c, StartOf(startFen)), State(StartOf(startFen), false), 0, plies)
  }

  // ---------- the loop ----------

  method ApplyOne(c: Client, fen: string, san: string) returns (after: Option<string>, ambiguous: seq<string>)
    ensures after == c.move(fen, san)
    ensures after.None? ==> ambiguous == if |Candidates(c, fen, san)| > 1 then Candidates(c, fen, san) else []
  {
    after := c.move(fen, san);
    ambiguous := [];
    if after.None? {
      var stripped := StripSan(san);
      if stripped != "" {
        var candidates := Filter(c.moves(fen), m => StripSan(m) == stripped);
        if |candidates| > 1 { ambiguous := candidates; }
      }
    }
  }

  /** The callback for one ply. */
  method BuildPly(c: Client, startFen: string, fen: string, blocked: bool, i: nat, p: Ply)
    returns (m: Option<EditMove>, fen': string, blocked': bool)
    ensures m == StepOf(c, startFen)(State(fen, blocked), i, p)
    ensures m.Some? ==> State(fen', blocked') == After(State(fen, blocked), m.value)
  {
    var side := SideForPly(i, startFen);
    var corrected := Trim(p.san) != Trim(p.recognizedText);
    var common := EditMove(p.san, p.clock, p.recognizedText, p.confidence, side, fen, fen, Illegal, corrected, []);
    fen', blocked' := fen, blocked;
    if IsPlaceholder(p.san) {
      return Some(common.(san := "?", legality := Ambiguous)), fen, true;
    }
    if blocked { return Some(common), fen, true; }
    if !c.loads(fen) { return None, fen, blocked; }
    var after, ambiguous := ApplyOne(c, fen, p.san);
    if after.Some? {
      return Some(common.(fenAfter := after.value, legality := Legal)), after.value, blocked;
    } else if |ambiguous| > 1 {
      return Some(common.(legality := Ambiguous, options := ambiguous)), fen, true;
    } else {
      return Some(common), fen, true;
    }
  }

  /** A list of computed moves before those of the rest. */
  function Prepend(out: seq<EditMove>, rest: Option<seq<EditMove>>): Option<seq<EditMove>> {
    match rest case None => None case Some(more) => Some(out + more)
  }

  lemma RebuildStep(f: Step, st: State, i: nat, plies: seq<Ply>, out: seq<EditMove>)
    requires i < |plies|
    ensures var m := f(st, i, plies[i]);
      Prepend(out, RebuildFrom(f, st, i, plies[i..]))
      == if m.None? then None else Prepend(out + [m.value], RebuildFrom(f, After(st, m.value), i + 1, plies[i + 1..]))
  {
    assert plies[i..][1..] == plies[i + 1..];
    var m := f(st, i, plies[i]);
    if m.Some? {
      var rest := RebuildFrom(f, After(st, m.value), i + 1, plies[i + 1..]);
      if rest.Some? { assert out + ([m.value] + rest.value) == out + [m.value] + rest.value; }
    }
  }

  method Rebuild(c: Client, startFen: string, plies: seq<Ply>) returns (res: Option<seq<EditMove>>)
    ensures res == Rebuilt(c, startFen, plies)
  {
    var start := if startFen == "" then STARTING_FEN else startFen;
    ghost var f := StepOf(c, start);
    var out: seq<EditMove> := [];
    var fen, blocked := start, false;
    assert plies[0..] == plies;
    assert forall rest: seq<EditMove> :: [] + rest == rest;
    for i := 0 to |plies|
      invariant Prepend(out, RebuildFrom(f, State(fen, blocked), i, plies[i..])) == Rebuilt(c, startFen, plies)
    {
      RebuildStep(f, State(fen, blocked), i, plies, out);
      var m, fen', blocked' := BuildPly(c, start, fen, blocked, i, plies[i]);
      if m.None? { return None; }
      out := out + [m.value];
      fen, blocked := fen', blocked';
    }
    assert plies[|plies|..] == [] && out + [] == out;
    return Some(out);
  }

  // ---------- a local description of the result ----------

  /** The state after some computed moves. */
  function Fold(st: State, out: seq<EditMove>): State
    decreases |out|
  {
    if out == [] then st else Fold(After(st, out[0]), out[1..])
  }

  /** Every computed move is the ply replayed in the state left by the moves before it. */
  ghost predicate IsReplay(f: Step, st: State, i: nat, plies: seq<Ply>, out: seq<EditMove>) {
    && |out| == |plies|
    && forall k :: 0 <= k < |out| ==> f(Fold(st, out[..k]), i + k, plies[k]) == Some(out[k])
  }

  lemma {:induction false} FoldSnoc(st: State, out: seq<EditMove>, m: EditMove)
    ensures Fold(st, out + [m]) == After(Fold(st, out), m)
    decreases |out|
  {
    if out == [] {
      assert (out + [m])[1..] == [];
    } else {
      assert (out + [m])[1..] == out[1..] + [m];
      FoldSnoc(After(st, out[0]), out[1..], m);
    }
  }

  lemma ReplayTail(f: Step, st: State, i: nat, plies: seq<Ply>, out: seq<EditMove>)
    requires plies != [] && |out| == |plies|
    ensures IsReplay(f, st, i, plies, out) <==>
      f(st, i, plies[0]) == Some(out[0])
      && IsReplay(f, After(st, out[0]), i + 1, plies[1..], out[1..])
  {
    var st' := After(st, out[0]);
    forall k | 0 < k < |out| ensures Fold(st, out[..k]) == Fold(st', out[1..][..k - 1]) {
      assert out[..k][0] == out[0] && out[..k][1..] == out[1..][..k - 1];
    }
    assert out[..0] == [];
    if IsReplay(f, st, i, plies, out) {
      forall k | 0 <= k < |out[1..]|
        ensures f(Fold(st', out[1..][..k]), i + 1 + k, plies[1..][k]) == Some(out[1..][k])
      {
        assert f(Fold(st, out[..k + 1]), i + (k + 1), plies[k + 1]) == Some(out[k + 1]);
      }
    }
    if f(st, i, plies[0]) == Some(out[0])
       && IsReplay(f, st', i + 1, plies[1..], out[1..]) {
      forall k | 0 <= k < |out|
        ensures f(Fold(st, out[..k]), i + k, plies[k]) == Some(out[k])
      {
        if k > 0 {
          assert f(Fold(st', out[1..][..k - 1]), i + 1 + (k - 1), plies[1..][k - 1]) == Some(out[1..][k - 1]);
        }
      }
    }
  }

  lemma {:induction false} RebuildIff(f: Step, st: State, i: nat, plies: seq<Ply>, out: seq<EditMove>)
    ensures RebuildFrom(f, st, i, plies) == Some(out) <==> IsReplay(f, st, i, plies, out)
    decreases |plies|
  {
    if plies == [] {
    } else if out != [] {
      RebuildIff(f, After(st, out[0]), i + 1, plies[1..], out[1..]);
      if |out| == |plies| { ReplayTail(f, st, i, plies, out); }
      assert out == [out[0]] + out[1..];
    }
  }

  // ---------- properties of a rebuilt list ----------

  /** The FEN that the k-th ply is played in. */
  function FenAt(start: string, out: seq<EditMove>, k: nat): string
    requires k <= |out|
  {
    if k == 0 then start else out[k - 1].fenAfter
  }

  function LegalCount(out: seq<EditMove>): (n: nat)
    ensures n <= |out|
    ensures forall i :: 0 <= i < n ==> out[i].legality.Legal?
    ensures n < |out| ==> !out[n].legality.Legal?
  {
    if out == [] || !out[0].legality.Legal? then 0 else 1 + LegalCount(out[1..])
  }

  /** What one ply does: only an unblocked ply is legal, and only a legal one moves on. */
  lemma PlyFacts(c: Client, start: string, st: State, i: nat, p: Ply)
    requires RebuildPly(c, start, st, i, p).Some?
    ensures var m := RebuildPly(c, start, st, i, p).value;
      && m.fenBefore == st.fen && m.side == SideForPly(i, start)
      && (m.legality.Legal? ==> !st.blocked)
      && (!m.legality.Legal? ==> m.fenAfter == st.fen)
  {
  }

  /** A step that behaves like replaying a ply. */
  ghost predicate Steady(f: Step) {
    forall st: State, i: nat, p: Ply :: f(st, i, p).Some? ==>
      && f(st, i, p).value.fenBefore == st.fen
      && (f(st, i, p).value.legality.Legal? ==> !st.blocked)
      && (!f(st, i, p).value.legality.Legal? ==> f(st, i, p).value.fenAfter == st.fen)
  }

  lemma StepSteady(c: Client, start: string)
    ensures Steady(StepOf(c, start))
  {
    forall st: State, i: nat, p: Ply | StepOf(c, start)(st, i, p).Some?
      ensures var m := StepOf(c, start)(st, i, p).value;
        && m.fenBefore == st.fen
        && (m.legality.Legal? ==> !st.blocked)
        && (!m.legality.Legal? ==> m.fenAfter == st.fen)
    {
      PlyFacts(c, start, st, i, p);
    }
  }

  /** Before the k-th ply: the FEN of the last entry, blocked once an entry was not legal. */
  lemma {:induction false} StateBefore(f: Step, start: string, plies: seq<Ply>, out: seq<EditMove>, k: nat)
    requires Steady(f) && IsReplay(f, State(start, false), 0, plies, out) && k <= |out|
    ensures Fold(State(start, false), out[..k]) == State(FenAt(start, out, k), LegalCount(out) < k)
    decreases k
  {
    if k > 0 {
      StateBefore(f, start, plies, out, k - 1);
      assert out[..k] == out[..k - 1] + [out[k - 1]];
      FoldSnoc(State(start, false), out[..k - 1], out[k - 1]);
      assert f(Fold(State(start, false), out[..k - 1]), 0 + (k - 1), plies[k - 1]) == Some(out[k - 1]);
    } else {
      assert out[..0] == [];
    }
  }

  /** The result as a replay. */
  lemma RebuiltReplay(c: Client, startFen: string, plies: seq<Ply>)
    requires Rebuilt(c, startFen, plies).Some?
    ensures |Rebuilt(c, startFen, plies).value| == |plies|
    ensures var start := StartOf(startFen);
      IsReplay(StepOf(c, start), State(start, false), 0, plies, Rebuilt(c, startFen, plies).value)
  {
    var start := StartOf(startFen);
    RebuildIff(StepOf(c, start), State(start, false), 0, plies, Rebuilt(c, startFen, plies).value);
  }

  /** Every entry is its ply replayed after the entry before it; once one is not legal the rest is
      blocked. */
  lemma RebuiltEntry(c: Client, startFen: string, plies: seq<Ply>, k: nat)
    requires Rebuilt(c, startFen, plies).Some? && k < |plies|
    ensures |Rebuilt(c, startFen, plies).value| == |plies|
    ensures var out, start := Rebuilt(c, startFen, plies).value, StartOf(startFen);
      RebuildPly(c, start, State(FenAt(start, out, k), LegalCount(out) < k), k, plies[k]) == Some(out[k])
  {
    var out, start := Rebuilt(c, startFen, plies).value, StartOf(startFen);
    var f := StepOf(c, start);
    RebuiltReplay(c, startFen, plies);
    StepSteady(c, start);
    StateBefore(f, start, plies, out, k);
    assert f(Fold(State(start, false), out[..k]), 0 + k, plies[k]) == Some(out[k]);
  }

  /** Positions chain, legal plies form a prefix, sides alternate, and an entry that is not legal
      leaves the position as it was. */
  lemma RebuiltChain(c: Client, startFen: string, plies: seq<Ply>, k: nat)
    requires Rebuilt(c, startFen, plies).Some? && k < |plies|
    ensures |Rebuilt(c, startFen, plies).value| == |plies|
    ensures var out, start := Rebuilt(c, startFen, plies).value, StartOf(startFen);
      && out[k].fenBefore == FenAt(start, out, k)
      && (out[k].legality.Legal? <==> k < LegalCount(out))
      && (!out[k].legality.Legal? ==> out[k].fenAfter == out[k].fenBefore)
      && out[k].side == SideForPly(k, start)
  {
    var out, start := Rebuilt(c, startFen, plies).value, StartOf(startFen);
    RebuiltEntry(c, startFen, plies, k);
    PlyFacts(c, start, State(FenAt(start, out, k), LegalCount(out) < k), k, plies[k]);
  }

  /** Behind the first stop an entry is illegal if and only if its ply is no placeholder, and
      otherwise ambiguous without options. */
  lemma BehindStop(c: Client, startFen: string, plies: seq<Ply>, k: nat)
    requires Rebuilt(c, startFen, plies).Some?
    requires LegalCount(Rebuilt(c, startFen, plies).value) < k < |plies|
    ensures |Rebuilt(c, startFen, plies).value| == |plies|
    ensures var m := Rebuilt(c, startFen, plies).value[k];
      && (m.legality.Illegal? <==> !IsPlaceholder(plies[k].san))
      && (m.legality.Ambiguous? <==> IsPlaceholder(plies[k].san))
      && m.options == []
  {
    RebuiltEntry(c, startFen, plies, k);
  }

  lemma ReplayPrefix(f: Step, st: State, i: nat, plies: seq<Ply>, out: seq<EditMove>, k: nat)
    requires IsReplay(f, st, i, plies, out) && k <= |out|
    ensures IsReplay(f, st, i, plies[..k], out[..k])
  {
    forall j | 0 <= j < k ensures f(Fold(st, out[..k][..j]), i + j, plies[..k][j]) == Some(out[..k][j]) {
      assert out[..k][..j] == out[..j];
      assert f(Fold(st, out[..j]), i + j, plies[j]) == Some(out[j]);
    }
  }

  /** Rebuilding a truncated ply list truncates the rebuilt list. */
  lemma RebuiltPrefix(c: Client, startFen: string, plies: seq<Ply>, k: nat)
    requires Rebuilt(c, startFen, plies).Some? && k <= |plies|
    ensures k <= |Rebuilt(c, startFen, plies).value|
    ensures Rebuilt(c, startFen, plies[..k]) == Some(Rebuilt(c, startFen, plies).value[..k])
  {
    var out, f := Rebuilt(c, startFen, plies).value, StepOf(c, StartOf(startFen));
    var begin := State(StartOf(startFen), false);
    RebuiltReplay(c, startFen, plies);
    ReplayPrefix(f, begin, 0, plies, out, k);
    RebuildIff(f, begin, 0, plies[..k], out[..k]);
  }

  /** Only a start position that the library refuses can break the page, and only at the first ply. */
  lemma {:induction false} RebuiltFromLoads(c: Client, start: string, st: State, i: nat, plies: seq<Ply>)
    requires ClientLawful(c) && (c.loads(st.fen) || st.blocked)
    ensures RebuildFrom(StepOf(c, start), st, i, plies).Some?
    decreases |plies|
  {
    if plies == [] {
    } else {
      var m := RebuildPly(c, start, st, i, plies[0]).value;
      RebuiltFromLoads(c, start, After(st, m), i + 1, plies[1..]);
    }
  }

  lemma RebuildBreaks(c: Client, startFen: string, plies: seq<Ply>)
    requires ClientLawful(c)
    ensures Rebuilt(c, startFen, plies).None? <==>
      plies != [] && !IsPlaceholder(plies[0].san) && !c.loads(StartOf(startFen))
  {
    var st := State(StartOf(startFen), false);
    if plies != [] && RebuildPly(c, StartOf(startFen), st, 0, plies[0]).Some? {
      var m := RebuildPly(c, StartOf(startFen), st, 0, plies[0]).value;
      RebuiltFromLoads(c, StartOf(startFen), After(st, m), 1, plies[1..]);
    }
  }

  // ---------- the tail of a game ----------

  function TailOf(start: string, out: seq<EditMove>): string {
    FenAt(start, out, LegalCount(out))
  }

  ghost predicate IsLastLegal(moves: seq<EditMove>, k: nat)
    requires k < |moves|
  {
    moves[k].legality.Legal? && forall j :: k < j < |moves| ==> !moves[j].legality.Legal?
  }

  method TailFen(moves: seq<EditMove>, startFen: string) returns (fen: string)
    ensures forall k :: 0 <= k < |moves| && IsLastLegal(moves, k) ==> fen == moves[k].fenAfter
    ensures (forall k :: 0 <= k < |moves| ==> !moves[k].legality.Legal?) ==> fen == StartOf(startFen)
    ensures (forall k :: 0 <= k < |moves| ==> (moves[k].legality.Legal? <==> k < LegalCount(moves)))
      ==> fen == TailOf(StartOf(startFen), moves)
  {
    var i := |moves| - 1;
    while i >= 0
      invariant -1 <= i < |moves|
      invariant forall k :: i < k < |moves| ==> !moves[k].legality.Legal?
    {
      if moves[i].legality.Legal? { return moves[i].fenAfter; }
      i := i - 1;
    }
    return if startFen == "" then STARTING_FEN else startFen;
  }

  method LastLegalIndex(moves: seq<EditMove>) returns (idx: int)
    ensures idx == LegalCount(moves) - 1
  {
    idx := -1;
    for i := 0 to |moves|
      invariant idx == i - 1 && LegalCount(moves) >= i
    {
      if moves[i].legality.Legal? { idx := i; } else { break; }
    }
  }

  // ---------- edits ----------

  function NewPly(san: string): Ply { Ply(san, None, "", 1.0) }

  /** A move dragged on the board after the legal prefix. */
  function DragAppend(plies: seq<Ply>, out: seq<EditMove>, san: string): seq<Ply>
    requires |out| == |plies|
  {
    plies[..LegalCount(out)] + [NewPly(san)] + plies[LegalCount(out)..]
  }

  function Replace(plies: seq<Ply>, index: nat, san: string): seq<Ply>
    requires index < |plies|
  {
    plies[index := plies[index].(san := san, confidence := 1.0)]
  }

  function InsertAfter(plies: seq<Ply>, index: nat): seq<Ply>
    requires index < |plies|
  {
    plies[..index + 1] + [NewPly("?")] + plies[index + 1..]
  }

  function Remove(plies: seq<Ply>, index: nat): seq<Ply>
    requires index < |plies|
  {
    plies[..index] + plies[index + 1..]
  }

  /** Ply lists that agree up to k rebuild to lists that agree up to k. */
  lemma RebuiltLocal(c: Client, startFen: string, a: seq<Ply>, b: seq<Ply>, k: nat)
    requires k <= |a| && k <= |b| && a[..k] == b[..k]
    requires Rebuilt(c, startFen, a).Some? && Rebuilt(c, startFen, b).Some?
    ensures k <= |Rebuilt(c, startFen, a).value| && k <= |Rebuilt(c, startFen, b).value|
    ensures Rebuilt(c, startFen, a).value[..k] == Rebuilt(c, startFen, b).value[..k]
  {
    RebuiltPrefix(c, startFen, a, k);
    RebuiltPrefix(c, startFen, b, k);
  }

  /** The rebuilt lists of a and b agree up to k. */
  ghost predicate AgreeUpTo(c: Client, startFen: string, a: seq<Ply>, b: seq<Ply>, k: nat) {
    var ra, rb := Rebuilt(c, startFen, a), Rebuilt(c, startFen, b);
    ra.Some? && rb.Some? && k <= |ra.value| && k <= |rb.value| && ra.value[..k] == rb.value[..k]
  }

  /** Editing a ply leaves the entries before it as they were. */
  lemma EditsKeepPrefix(c: Client, startFen: string, plies: seq<Ply>, index: nat, san: string)
    requires ClientLawful(c) && c.loads(StartOf(startFen)) && index < |plies|
    ensures AgreeUpTo(c, startFen, plies, Replace(plies, index, san), index)
    ensures AgreeUpTo(c, startFen, plies, Remove(plies, index), index)
    ensures AgreeUpTo(c, startFen, plies, InsertAfter(plies, index), index + 1)
    ensures AgreeUpTo(c, startFen, plies, plies[..index], index)
  {
    EditLocal(c, startFen, plies, Replace(plies, index, san), index);
    EditLocal(c, startFen, plies, Remove(plies, index), index);
    EditLocal(c, startFen, plies, InsertAfter(plies, index), index + 1);
    EditLocal(c, startFen, plies, plies[..index], index);
  }

  lemma EditLocal(c: Client, startFen: string, a: seq<Ply>, b: seq<Ply>, k: nat)
    requires ClientLawful(c) && c.loads(StartOf(startFen))
    requires k <= |a| && k <= |b| && a[..k] == b[..k]
    ensures AgreeUpTo(c, startFen, a, b, k)
  {
    RebuildBreaks(c, startFen, a);
    RebuildBreaks(c, startFen, b);
    RebuiltLocal(c, startFen, a, b, k);
  }

  lemma {:induction false} CountAgrees(a: seq<EditMove>, b: seq<EditMove>, k: nat)
    requires k <= |a| && k <= |b| && a[..k] == b[..k] && k <= LegalCount(a)
    ensures k <= LegalCount(b)
    decreases |a|
  {
    if k == 0 {
    } else {
      assert a[..k][0] == b[..k][0];
      assert a[1..][..k - 1] == a[..k][1..] && b[1..][..k - 1] == b[..k][1..];
      CountAgrees(a[1..], b[1..], k - 1);
    }
  }

  /** A move dragged at the tail, legal there, makes the legal prefix longer and changes nothing
      before it. */
  lemma DragGrowsPrefix(c: Client, startFen: string, plies: seq<Ply>, san: string)
    requires ClientLawful(c) && c.loads(StartOf(startFen))
    requires Rebuilt(c, startFen, plies).Some? && |Rebuilt(c, startFen, plies).value| == |plies|
    requires c.move(TailOf(StartOf(startFen), Rebuilt(c, startFen, plies).value), san).Some? && !IsPlaceholder(san)
    ensures var out := Rebuilt(c, startFen, plies).value;
      var res := Rebuilt(c, startFen, DragAppend(plies, out, san));
      && AgreeUpTo(c, startFen, plies, DragAppend(plies, out, san), LegalCount(out))
      && |res.value| == |plies| + 1
      && LegalCount(res.value) >= LegalCount(out) + 1
  {
    var out, start := Rebuilt(c, startFen, plies).value, StartOf(startFen);
    var n := LegalCount(out);
    var plies' := DragAppend(plies, out, san);
    assert plies'[..n] == plies[..n] && plies'[n] == NewPly(san);
    EditLocal(c, startFen, plies, plies', n);
    var out' := Rebuilt(c, startFen, plies').value;
    RebuiltEntry(c, startFen, plies', n);
    if n > 0 { assert out'[..n][n - 1] == out[..n][n - 1]; }
    assert FenAt(start, out', n) == TailOf(start, out);
    CountAgrees(out, out', n);
    TailLoads(c, startFen, plies);
    DraggedLegal(c, start, FenAt(start, out', n), n, san);
    assert out'[n].legality.Legal?;
    assert LegalCount(out') != n;
  }

  lemma DraggedLegal(c: Client, start: string, fen: string, i: nat, san: string)
    requires c.loads(fen) && c.move(fen, san).Some? && !IsPlaceholder(san)
    ensures RebuildPly(c, start, State(fen, false), i, NewPly(san)).Some?
    ensures RebuildPly(c, start, State(fen, false), i, NewPly(san)).value.legality.Legal?
  {
  }

  lemma TailLoads(c: Client, startFen: string, plies: seq<Ply>)
    requires ClientLawful(c) && c.loads(StartOf(startFen)) && Rebuilt(c, startFen, plies).Some?
    ensures c.loads(TailOf(StartOf(startFen), Rebuilt(c, startFen, plies).value))
  {
    var out := Rebuilt(c, startFen, plies).value;
    LoadsAt(c, startFen, plies, LegalCount(out));
  }

  lemma {:induction false} LoadsAt(c: Client, startFen: string, plies: seq<Ply>, k: nat)
    requires ClientLawful(c) && c.loads(StartOf(startFen)) && Rebuilt(c, startFen, plies).Some?
    requires k <= LegalCount(Rebuilt(c, startFen, plies).value)
    ensures c.loads(FenAt(StartOf(startFen), Rebuilt(c, startFen, plies).value, k))
  {
    if k == 0 {
    } else {
      var out, start := Rebuilt(c, startFen, plies).value, StartOf(startFen);
      LoadsAt(c, startFen, plies, k - 1);
      RebuiltReplay(c, startFen, plies);
      RebuiltEntry(c, startFen, plies, k - 1);
      assert out[k - 1].legality.Legal?;
      LegalPlyLoads(c, start, FenAt(start, out, k - 1), k - 1, plies[k - 1]);
    }
  }

  lemma LegalPlyLoads(c: Client, start: string, fen: string, i: nat, p: Ply)
    requires ClientLawful(c) && c.loads(fen)
    requires RebuildPly(c, start, State(fen, false), i, p).Some?
    requires RebuildPly(c, start, State(fen, false), i, p).value.legality.Legal?
    ensures c.loads(RebuildPly(c, start, State(fen, false), i, p).value.fenAfter)
  {
  }

  // ---------- what stripping makes of a notation ----------

  lemma {:induction false} NoPromotion(s: string)
    requires Lacks(s, '=')
    ensures DropPromotion(s) == s
  {
    if |s| < 2 {
    } else {
      NoPromotion(s[1..]);
      assert s == [s[0]] + s[1..];
    }
  }

  lemma {:induction false} PromotionDropped(body: string, piece: char)
    requires Lacks(body, '=') && IsPieceLetter(piece) && piece != 'K'
    ensures DropPromotion(body + ['=', piece]) == body
  {
    var s := body + ['=', piece];
    if body == "" {
      assert s == ['=', piece] && s[2..] == "";
    } else {
      assert s[1..] == body[1..] + ['=', piece];
      PromotionDropped(body[1..], piece);
      assert body == [body[0]] + body[1..];
    }
  }

  /** Check marks do not survive stripping. */
  lemma MarksStripped(core: string, mark: string)
    requires Lacks(core, '+') && Lacks(core, '#') && (mark == "" || mark == "+" || mark == "#")
    ensures Without(Without(core + mark, '+'), '#') == core
  {
    WithoutAppend(core, mark, '+');
    WithoutAbsent(core, '+');
    var rest := Without(mark, '+');
    assert mark == "+" ==> mark[1..] == "";
    assert mark == "#" ==> mark[1..] == "" && rest == "#";
    WithoutAppend(core, rest, '#');
    WithoutAbsent(core, '#');
    assert Without(rest, '#') == "";
    assert core + "" == core;
  }

  /** What is left of a move: the first origin character and the capture mark go, and the file of a
      bare quiet move goes with them. */
  function StrippedSan(m: San): string {
    match m
    case Castle(_) => Core(m)
    case Pawn(from, file, rank, _) => from + [file, rank]
    case Piece(letter, from, capture, file, rank) =>
      if from != "" then [letter] + from[1..] + [file, rank]
      else if capture then [letter, file, rank]
      else [letter, rank]
  }

  /** The text of a move with its check mark. */
  function SanText(m: San, mark: Mark): string {
    Core(m) + MarkText(mark)
  }

  lemma StripOfSan(m: San, mark: Mark)
    requires WellFormed(m)
    ensures StripSan(SanText(m, mark)) == StrippedSan(m)
  {
    CoreLacks(m);
    MarksStripped(Core(m), MarkText(mark));
    match m
    case Castle(_) => StripCastle(m);
    case Pawn(_, _, _, _) => StripPawn(m);
    case Piece(_, _, _, _, _) => StripPiece(m);
  }

  lemma CoreLacks(m: San)
    requires WellFormed(m)
    ensures Lacks(Core(m), '+') && Lacks(Core(m), '#')
  {
    match m
    case Castle(_) =>
    case Piece(letter, from, capture, file, rank) =>
      var mid := if capture then "x" else "";
      assert Lacks([letter] + from, '+') && Lacks([letter] + from, '#');
      assert Lacks(mid + [file, rank], '+') && Lacks(mid + [file, rank], '#');
      assert Core(m) == ([letter] + from) + (mid + [file, rank]);
    case Pawn(from, file, rank, promo) =>
      var origin := if from == "" then "" else from + "x";
      assert Lacks(origin + [file, rank], '+') && Lacks(origin + [file, rank], '#');
  }

  lemma StripCastle(m: San)
    requires m.Castle?
    ensures Trim(Without(DropOrigin(DropPromotion(Core(m))), 'x')) == Core(m)
  {
    NoPromotion(Core(m));
    WithoutAbsent(Core(m), 'x');
    TrimSolid(Core(m));
  }

  lemma StripPawn(m: San)
    requires m.Pawn? && WellFormed(m)
    ensures Trim(Without(DropOrigin(DropPromotion(Core(m))), 'x')) == StrippedSan(m)
  {
    var cap, dest := if m.from == "" then "" else "x", [m.file, m.rank];
    var body := m.from + cap + dest;
    PawnBody(m, cap, dest);
    if m.promo.Some? {
      assert Core(m) == body + ['=', m.promo.value];
      PromotionDropped(body, m.promo.value);
    } else {
      assert Core(m) == body;
      NoPromotion(body);
    }
    assert DropOrigin(body) == body;
    WithoutTail(m.from, cap, dest);
    StrippedSolid(m);
    TrimSolid(StrippedSan(m));
  }

  lemma StripPiece(m: San)
    requires m.Piece? && WellFormed(m)
    ensures Trim(Without(DropOrigin(DropPromotion(Core(m))), 'x')) == StrippedSan(m)
  {
    assert Lacks(Core(m), '=');
    NoPromotion(Core(m));
    if m.from == "" { StripBare(m); } else { StripDisambiguated(m); }
    StrippedSolid(m);
    TrimSolid(StrippedSan(m));
  }

  lemma StrippedSolid(m: San)
    requires WellFormed(m)
    ensures Solid(StrippedSan(m))
  {
    var s := StrippedSan(m);
    if m.Piece? { assert s[0] == m.letter && s[|s| - 1] == m.rank; }
    if m.Pawn? { assert s[0] == (if m.from == "" then m.file else m.from[0]) && s[|s| - 1] == m.rank; }
  }

  lemma StripBare(m: San)
    requires m.Piece? && WellFormed(m) && m.from == ""
    ensures Without(DropOrigin(Core(m)), 'x') == StrippedSan(m)
  {
    var cap := if m.capture then "x" else "";
    BareDropped(m.letter, cap, m.file, m.rank);
    assert Core(m) == [m.letter] + cap + [m.file, m.rank];
    WithoutAbsent(StrippedSan(m), 'x');
  }

  lemma StripDisambiguated(m: San)
    requires m.Piece? && WellFormed(m) && m.from != ""
    ensures Without(DropOrigin(Core(m)), 'x') == StrippedSan(m)
  {
    var cap, dest, from := if m.capture then "x" else "", [m.file, m.rank], m.from[1..];
    var rest := from + cap + dest;
    assert Core(m) == [m.letter, m.from[0]] + rest;
    OriginDropped(m.letter, m.from[0], rest);
    StripRest(m.letter, from, cap, dest);
  }

  /** Of a move without origin, stripping drops the capture mark, or the file where there is none. */
  lemma BareDropped(letter: char, cap: string, file: char, rank: char)
    requires IsPieceLetter(letter) && IsFile(file) && IsRank(rank) && (cap == "" || cap == "x")
    ensures DropOrigin([letter] + cap + [file, rank]) == if cap == "x" then [letter, file, rank] else [letter, rank]
  {
    var s := [letter] + cap + [file, rank];
    if cap == "x" {
      assert s[1..] == "x" + [file, rank] && s[1..][1..] == [file, rank];
    } else {
      assert s[2..] == [rank];
    }
  }

  /** Of a move with an origin, the first origin character goes, and a capture mark behind it. */
  lemma OriginDropped(letter: char, origin: char, rest: string)
    requires IsPieceLetter(letter) && IsOriginChar(origin) && rest != ""
    ensures DropOrigin([letter, origin] + rest) == [letter] + if rest[0] == 'x' then rest[1..] else rest
  {
    assert ([letter, origin] + rest)[2..] == rest;
  }

  lemma StripRest(letter: char, from: string, cap: string, dest: string)
    requires IsPieceLetter(letter) && |from| <= 1 && Lacks(from, 'x') && |dest| == 2 && Lacks(dest, 'x')
    requires cap == "" || cap == "x"
    ensures var rest := from + cap + dest;
      Without([letter] + (if rest[0] == 'x' then rest[1..] else rest), 'x') == [letter] + from + dest
  {
    var rest := from + cap + dest;
    var kept := if rest[0] == 'x' then rest[1..] else rest;
    if rest[0] == 'x' {
      assert from == "" && cap == "x" && kept == dest;
      WithoutAbsent(kept, 'x');
    } else {
      WithoutTail(from, cap, dest);
    }
    WithoutAppend([letter], kept, 'x');
    assert [letter][1..] == "" && Without([letter], 'x') == [letter];
  }

  // ---------- under-disambiguated input ----------

  /** A piece move without origin strips like its one-character disambiguations if and only if it is a
      capture: of a quiet move, the file is taken for an origin. */
  lemma BareMoveSiblings(letter: char, origin: char, capture: bool, file: char, rank: char)
    requires IsPieceLetter(letter) && IsOriginChar(origin) && IsFile(file) && IsRank(rank)
    ensures var bare, sibling := Piece(letter, "", capture, file, rank), Piece(letter, [origin], capture, file, rank);
      StripSan(Core(bare)) == StripSan(Core(sibling)) <==> capture
  {
    var bare, sibling := Piece(letter, "", capture, file, rank), Piece(letter, [origin], capture, file, rank);
    StripOfSan(bare, Quiet);
    StripOfSan(sibling, Quiet);
    assert SanText(bare, Quiet) == Core(bare) && SanText(sibling, Quiet) == Core(sibling);
    assert StrippedSan(sibling) == [letter, file, rank];
  }

  /** The legal moves, each as the notation of a move. */
  ghost predicate ListsNotations(c: Client, fen: string) {
    forall l :: l in c.moves(fen) ==> exists m, k :: WellFormed(m) && l == SanText(m, k)
  }

  /** The moves that strip like a bare read of this piece, capture and square. */
  predicate LooksLike(m: San, letter: char, capture: bool, file: char, rank: char) {
    && m.Piece? && m.letter == letter && m.rank == rank
    && if capture then m.file == file && (if m.from == "" then m.capture else |m.from| == 1)
       else m.from == "" && !m.capture
  }

  lemma LooksAlike(m: San, letter: char, capture: bool, file: char, rank: char)
    requires WellFormed(m) && IsPieceLetter(letter) && IsFile(file) && IsRank(rank)
    ensures StrippedSan(m) == StrippedSan(Piece(letter, "", capture, file, rank))
      <==> LooksLike(m, letter, capture, file, rank)
  {
    if m.Piece? { PiecesAlike(m, letter, capture, file, rank); } else { NoPieceText(m); }
  }

  lemma NoPieceText(m: San)
    requires WellFormed(m) && !m.Piece?
    ensures StrippedSan(m) != "" && !IsPieceLetter(StrippedSan(m)[0])
  {
    if m.Pawn? { assert StrippedSan(m)[0] == if m.from == "" then m.file else m.from[0]; }
  }

  lemma PiecesAlike(m: San, letter: char, capture: bool, file: char, rank: char)
    requires m.Piece? && WellFormed(m) && IsPieceLetter(letter) && IsFile(file) && IsRank(rank)
    ensures StrippedSan(m) == StrippedSan(Piece(letter, "", capture, file, rank))
      <==> LooksLike(m, letter, capture, file, rank)
  {
    var s, t := StrippedSan(m), StrippedSan(Piece(letter, "", capture, file, rank));
    assert |t| == if capture then 3 else 2;
    assert |s| == if m.from != "" then |m.from| + 2 else if m.capture then 3 else 2;
    assert s[0] == m.letter && s[|s| - 1] == m.rank && (|s| > 2 ==> s[|s| - 2] == m.file);
    if LooksLike(m, letter, capture, file, rank) { assert s == t; }
  }

  /** Exactly which moves a bare read is matched with: a capture with the captures of that piece on
      that square and everything disambiguated by one character there, a quiet move with the bare quiet
      moves of that piece to that rank, on whatever file. */
  lemma BareReadCandidates(c: Client, fen: string, letter: char, capture: bool, file: char, rank: char, mark: Mark)
    requires IsPieceLetter(letter) && IsFile(file) && IsRank(rank)
    ensures var read := SanText(Piece(letter, "", capture, file, rank), mark);
      forall m, k :: WellFormed(m) ==>
        (SanText(m, k) in Candidates(c, fen, read)
         <==> SanText(m, k) in c.moves(fen) && LooksLike(m, letter, capture, file, rank))
  {
    var bare := Piece(letter, "", capture, file, rank);
    var read := SanText(bare, mark);
    StripOfSan(bare, mark);
    forall m, k | WellFormed(m)
      ensures SanText(m, k) in Candidates(c, fen, read)
        <==> SanText(m, k) in c.moves(fen) && LooksLike(m, letter, capture, file, rank)
    {
      StripOfSan(m, k);
      LooksAlike(m, letter, capture, file, rank);
    }
  }

  /** What the page makes of a bare read that cannot be played: its options are moves that look like
      it, and it is called ambiguous exactly when there are several. */
  lemma BareReadEntry(
    c: Client, start: string, fen: string, i: nat, p: Ply,
    letter: char, capture: bool, file: char, rank: char, mark: Mark)
    requires IsPieceLetter(letter) && IsFile(file) && IsRank(rank)
    requires p.san == SanText(Piece(letter, "", capture, file, rank), mark)
    requires c.loads(fen) && c.move(fen, p.san).None? && ListsNotations(c, fen)
    ensures var entry := RebuildPly(c, start, State(fen, false), i, p);
      && entry.Some? && !entry.value.legality.Legal?
      && (entry.value.legality.Ambiguous? <==> |Candidates(c, fen, p.san)| > 1)
      && (forall l :: l in entry.value.options ==>
            l in c.moves(fen)
            && exists m, k :: WellFormed(m) && l == SanText(m, k) && LooksLike(m, letter, capture, file, rank))
  {
    var bare := Piece(letter, "", capture, file, rank);
    BareIsRead(bare, mark);
    BareReadCandidates(c, fen, letter, capture, file, rank, mark);
    forall l | l in Candidates(c, fen, p.san)
      ensures l in c.moves(fen)
        && exists m, k :: WellFormed(m) && l == SanText(m, k) && LooksLike(m, letter, capture, file, rank)
    {
      var m, k :| WellFormed(m) && l == SanText(m, k);
      assert SanText(m, k) in Candidates(c, fen, p.san);
    }
  }

  lemma BareIsRead(bare: San, mark: Mark)
    requires bare.Piece? && WellFormed(bare)
    ensures !IsPlaceholder(SanText(bare, mark))
  {
    var s := SanText(bare, mark);
    assert s[0] == bare.letter;
    assert Solid(s);
    TrimSolid(s);
  }

  /** A quiet bare read is called ambiguous with moves of the same piece to the same rank on other
      files: whenever two of them are legal, and never with its own disambiguations. */
  lemma WrongFilesOffered(
    c: Client, start: string, fen: string, i: nat, p: Ply, letter: char, file: char, rank: char, f1: char, f2: char)
    requires IsPieceLetter(letter) && IsFile(file) && IsRank(rank) && IsFile(f1) && IsFile(f2) && f1 != f2
    requires p.san == SanText(Piece(letter, "", false, file, rank), Quiet)
    requires c.loads(fen) && c.move(fen, p.san).None?
    requires SanText(Piece(letter, "", false, f1, rank), Quiet) in c.moves(fen)
    requires SanText(Piece(letter, "", false, f2, rank), Quiet) in c.moves(fen)
    ensures var entry := RebuildPly(c, start, State(fen, false), i, p);
      && entry.Some? && entry.value.legality.Ambiguous?
      && SanText(Piece(letter, "", false, f1, rank), Quiet) in entry.value.options
      && SanText(Piece(letter, "", false, f2, rank), Quiet) in entry.value.options
      && forall origin, k :: IsOriginChar(origin) ==>
           SanText(Piece(letter, [origin], false, file, rank), k) !in entry.value.options
  {
    BareIsRead(Piece(letter, "", false, file, rank), Quiet);
    OtherFiles(c, fen, letter, file, rank, f1, f2);
    forall origin, k | IsOriginChar(origin)
      ensures SanText(Piece(letter, [origin], false, file, rank), k) !in Candidates(c, fen, p.san)
    {
      SiblingMissed(c, fen, letter, file, rank, origin, k);
    }
  }

  lemma OtherFiles(c: Client, fen: string, letter: char, file: char, rank: char, f1: char, f2: char)
    requires IsPieceLetter(letter) && IsFile(file) && IsRank(rank) && IsFile(f1) && IsFile(f2) && f1 != f2
    requires SanText(Piece(letter, "", false, f1, rank), Quiet) in c.moves(fen)
    requires SanText(Piece(letter, "", false, f2, rank), Quiet) in c.moves(fen)
    ensures var options := Candidates(c, fen, SanText(Piece(letter, "", false, file, rank), Quiet));
      && SanText(Piece(letter, "", false, f1, rank), Quiet) in options
      && SanText(Piece(letter, "", false, f2, rank), Quiet) in options && |options| > 1
  {
    var a, b := Piece(letter, "", false, f1, rank), Piece(letter, "", false, f2, rank);
    BareReadCandidates(c, fen, letter, false, file, rank, Quiet);
    assert WellFormed(a) && WellFormed(b);
    assert SanText(a, Quiet)[1] == f1 && SanText(b, Quiet)[1] == f2;
    TwoMembers(Candidates(c, fen, SanText(Piece(letter, "", false, file, rank), Quiet)),
               SanText(a, Quiet), SanText(b, Quiet));
  }

  lemma SiblingMissed(c: Client, fen: string, letter: char, file: char, rank: char, origin: char, k: Mark)
    requires IsPieceLetter(letter) && IsFile(file) && IsRank(rank) && IsOriginChar(origin)
    ensures SanText(Piece(letter, [origin], false, file, rank), k)
      !in Candidates(c, fen, SanText(Piece(letter, "", false, file, rank), Quiet))
  {
    BareReadCandidates(c, fen, letter, false, file, rank, Quiet);
    assert WellFormed(Piece(letter, [origin], false, file, rank));
  }

  lemma TwoMembers(s: seq<string>, a: string, b: string)
    requires a in s && b in s && a != b
    ensures |s| > 1
  {
  }
}
