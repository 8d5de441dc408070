/** Turning recognised move texts into a reviewable draft (internal/recognition/postprocess.go).
    The translation of German notation is a parameter: any function from texts to texts. */
module Reconciliation {
  import opened Text
  import opened Sorting
  import opened ChessRules
  import opened SanMoves
  import opened MatchLegal

  datatype MoveToken = MoveToken(text: string, confidence: real)

  /** One ply of a draft. Recognition never sets a clock. */
  datatype DraftMove = DraftMove(
    ply: nat, side: string, san: string, fenAfter: string, clock: Option<int>, isLegal: bool,
    recognizedText: string, corrected: bool, confidence: real, suggestions: seq<string>)

  const CONF_CLEAN: real := 0.9
  const CONF_AUTO_CORRECTED: real := 0.4
  const CONF_AMBIGUOUS_PICK: real := 0.3
  const CONF_ILLEGAL: real := 0.0
  const FLAT_MODEL_CONF: real := 0.5

  function CleanConfidence(model: real): (c: real)
    ensures 0.0 < c
    ensures 0.0 < model < FLAT_MODEL_CONF ==> c == model
    ensures !(0.0 < model < FLAT_MODEL_CONF) ==> c == CONF_CLEAN
  {
    if model > 0.0 && model < FLAT_MODEL_CONF then model else CONF_CLEAN
  }

  function SideToMove(fen: string): string {
    if BlackField(fen) then "black" else "white"
  }

  // ---------- disambiguation ----------

  /** Piece letter and destination square of a piece move's notation. */
  function PieceDest(san: string): Option<(char, string)> {
    var s := TrimMarks(san);
    if |s| < 3 || !IsPieceLetter(s[0]) then None
    else
      var dest := s[|s| - 2..];
      if IsFile(dest[0]) && IsRank(dest[1]) then Some((s[0], dest)) else None
  }

  predicate SameTarget(san: string, l: string) {
    PieceDest(l).Some? && PieceDest(l) == PieceDest(san)
  }

  function Disambiguations(san: string, legal: seq<string>): (choices: seq<string>)
    ensures forall l :: l in choices <==> l in legal && SameTarget(san, l)
  {
    if PieceDest(san).None? then [] else Filter(legal, l => SameTarget(san, l))
  }

  method FindDisambiguations(san: string, legal: seq<string>) returns (out: seq<string>)
    ensures out == Disambiguations(san, legal)
  {
    out := [];
    var target := PieceDest(san);
    if target.None? { return; }
    for i := 0 to |legal|
      invariant out == Filter(legal[..i], l => SameTarget(san, l))
    {
      assert legal[..i + 1] == legal[..i] + [legal[i]];
      FilterSnoc(legal[..i], legal[i], l => SameTarget(san, l));
      var here := PieceDest(legal[i]);
      if here.Some? && here == target { out := out + [legal[i]]; }
    }
    assert legal[..|legal|] == legal;
  }

  // ---------- one token ----------

  /** How a readable token is settled in a position: the move, its FEN and its marking. */
  datatype Settled = Settled(
    san: string, fenAfter: string, corrected: bool, confidence: real, suggestions: seq<string>)

  /** The least disambiguation of an ambiguous read, when it can be played. */
  function PickDisambiguation(r: Rules, fen: string, san: string): Option<Settled> {
    var choices := Sort(Disambiguations(san, LegalSans(r, fen)), LexLe);
    if Validate(r, fen, san) == Err(AmbiguousMove) && |choices| >= 2 && Validate(r, fen, choices[0]).Ok?
    then Some(Settled(choices[0], Validate(r, fen, choices[0]).value, true, CONF_AMBIGUOUS_PICK, choices))
    else None
  }

  /** The one clear nearest legal move, when it can be played. */
  function PickNearest(r: Rules, fen: string, san: string): Option<Settled> {
    var m := MatchOf(san, LegalSans(r, fen));
    if m.confident && Validate(r, fen, m.best).Ok?
    then Some(Settled(m.best, Validate(r, fen, m.best).value, true, CONF_AUTO_CORRECTED, m.ranked))
    else None
  }

  function Settle(r: Rules, fen: string, san: string, conf: real): Option<Settled> {
    match Validate(r, fen, san)
    case Ok(to) => Some(Settled(san, to, false, CleanConfidence(conf), []))
    case Err(_) =>
      if PickDisambiguation(r, fen, san).Some? then PickDisambiguation(r, fen, san)
      else PickNearest(r, fen, san)
  }

  /** The running state of the loop. */
  datatype State = State(cur: string, blocked: bool)

  function DraftOf(r: Rules, st: State, i: nat, san: string, t: MoveToken): DraftMove {
    var open := DraftMove(i + 1, SideToMove(st.cur), san, "", None, false, t.text, false, CONF_ILLEGAL, []);
    if st.blocked || san == "" then open
    else match Settle(r, st.cur, san, t.confidence)
      case Some(s) =>
        open.(san := s.san, fenAfter := s.fenAfter, isLegal := true, corrected := s.corrected,
              confidence := s.confidence, suggestions := s.suggestions)
      case None => open.(suggestions := MatchOf(san, LegalSans(r, st.cur)).ranked)
  }

  function After(st: State, m: DraftMove): State {
    if m.isLegal then State(m.fenAfter, false) else State(st.cur, true)
  }

  /** How one token is drafted. */
  type Stepper = (State, nat, MoveToken) -> DraftMove

  function StepperOf(r: Rules, german: string -> string): Stepper {
    (st: State, i: nat, t: MoveToken) => DraftOf(r, st, i, german(t.text), t)
  }

  function DraftBy(f: Stepper, st: State, i: nat, tokens: seq<MoveToken>): (out: seq<DraftMove>)
    ensures |out| == |tokens|
    decreases |tokens|
  {
    if tokens == [] then []
    else
      var m := f(st, i, tokens[0]);
      [m] + DraftBy(f, After(st, m), i + 1, tokens[1..])
  }

  /** The draft of the tokens from the i-th on. */
  function Draft(r: Rules, german: string -> string, st: State, i: nat, tokens: seq<MoveToken>): (out: seq<DraftMove>)
    ensures |out| == |tokens|
  {
    DraftBy(StepperOf(r, german), st, i, tokens)
  }

  lemma DraftCons(r: Rules, german: string -> string, st: State, i: nat, tokens: seq<MoveToken>)
    requires tokens != []
    ensures var m := DraftOf(r, st, i, german(tokens[0].text), tokens[0]);
      Draft(r, german, st, i, tokens) == [m] + Draft(r, german, After(st, m), i + 1, tokens[1..])
  {
  }

  function InitialState(startFen: string): State {
    State(StartOf(startFen), false)
  }

  // ---------- the loop ----------

  /** What the loop body does with a readable token that does not validate. */
  method Repair(r: Rules, cur: string, san: string, err: Error) returns (s: Option<Settled>, ranked: seq<string>)
    requires Validate(r, cur, san) == Err(err)
    ensures s == Settle(r, cur, san, 0.0)
    ensures s.None? ==> ranked == MatchOf(san, LegalSans(r, cur)).ranked
  {
    var legal := LegalSans(r, cur);
    ranked := [];
    if err == AmbiguousMove {
      var choices := FindDisambiguations(san, legal);
      LexOrder();
      SortCorrect(choices, LexLe);
      if |choices| >= 2 {
        choices := Sort(choices, LexLe);
        var to2 := Validate(r, cur, choices[0]);
        if to2.Ok? {
          return Some(Settled(choices[0], to2.value, true, CONF_AMBIGUOUS_PICK, choices)), [];
        }
      }
    }
    var best, confident;
    best, ranked, confident := FindMatch(san, legal);
    assert Match(best, ranked, confident).best == best;
    if confident {
      var to2 := Validate(r, cur, best);
      if to2.Ok? {
        return Some(Settled(best, to2.value, true, CONF_AUTO_CORRECTED, ranked)), ranked;
      }
    }
    return None, ranked;
  }

  /** The loop body for one token. */
  method DraftToken(r: Rules, cur: string, blocked: bool, i: nat, san: string, t: MoveToken)
    returns (m: DraftMove, cur': string, blocked': bool)
    ensures m == DraftOf(r, State(cur, blocked), i, san, t)
    ensures State(cur', blocked') == After(State(cur, blocked), m)
  {
    m := DraftMove(i + 1, SideToMove(cur), san, "", None, false, t.text, false, CONF_ILLEGAL, []);
    cur', blocked' := cur, blocked;
    if blocked || san == "" {
      if san == "" { blocked' := true; }
      return;
    }
    var to := Validate(r, cur, san);
    if to.Ok? {
      m := m.(isLegal := true, fenAfter := to.value, confidence := CleanConfidence(t.confidence));
      cur' := to.value;
      return;
    }
    var s, ranked := Repair(r, cur, san, to.error);
    if s.Some? {
      m := m.(san := s.value.san, corrected := true, isLegal := true, fenAfter := s.value.fenAfter,
              suggestions := s.value.suggestions, confidence := s.value.confidence);
      cur' := s.value.fenAfter;
      return;
    }
    m := m.(suggestions := ranked);
    blocked' := true;
  }

  method Reconcile(r: Rules, german: string -> string, startFen: string, tokens: seq<MoveToken>)
    returns (out: seq<DraftMove>)
    ensures out == Draft(r, german, InitialState(startFen), 0, tokens)
  {
    var cur := if startFen == "" then STARTING_FEN else startFen;
    var blocked := false;
    out := [];
    assert tokens[0..] == tokens;
    for i := 0 to |tokens|
      invariant out + Draft(r, german, State(cur, blocked), i, tokens[i..])
        == Draft(r, german, InitialState(startFen), 0, tokens)
    {
      DraftStep(r, german, State(cur, blocked), i, tokens, out);
      var san := german(tokens[i].text);
      var m;
      m, cur, blocked := DraftToken(r, cur, blocked, i, san, tokens[i]);
      out := out + [m];
    }
    assert tokens[|tokens|..] == [];
  }

  lemma DraftStep(r: Rules, german: string -> string, st: State, i: nat, tokens: seq<MoveToken>, out: seq<DraftMove>)
    requires i < |tokens|
    ensures var m := DraftOf(r, st, i, german(tokens[i].text), tokens[i]);
      out + Draft(r, german, st, i, tokens[i..])
      == out + [m] + Draft(r, german, After(st, m), i + 1, tokens[i + 1..])
  {
    assert tokens[i..][1..] == tokens[i + 1..];
  }

  // ---------- facts about one token ----------

  /** Reading back a written FEN. */
  lemma ReadWritten(r: Rules, p: Position)
    requires Lawful(r)
    ensures r.write(p) != "" && ReadFen(r, r.write(p)) == Some(p)
    ensures BlackField(r.write(p)) == r.blackToMove(p)
  {
    assert r.read(r.write(p)) == Some(p);
  }

  /** A settled token is a legal move: its notation resolves, and its FEN is the next position. */
  lemma SettledIsLegal(r: Rules, fen: string, san: string, conf: real)
    requires Settle(r, fen, san, conf).Some?
    ensures var s := Settle(r, fen, san, conf).value;
      Validate(r, fen, s.san) == Ok(s.fenAfter)
  {
    if Validate(r, fen, san).Err? {
      if PickDisambiguation(r, fen, san).Some? { PickedIsLegal(r, fen, san); } else { NearestIsLegal(r, fen, san); }
    }
  }

  lemma PickedIsLegal(r: Rules, fen: string, san: string)
    requires PickDisambiguation(r, fen, san).Some?
    ensures var s := PickDisambiguation(r, fen, san).value; Validate(r, fen, s.san) == Ok(s.fenAfter)
  {
    var choices := Sort(Disambiguations(san, LegalSans(r, fen)), LexLe);
    assert Validate(r, fen, choices[0]).Ok?;
  }

  lemma NearestIsLegal(r: Rules, fen: string, san: string)
    requires PickNearest(r, fen, san).Some?
    ensures var s := PickNearest(r, fen, san).value; Validate(r, fen, s.san) == Ok(s.fenAfter)
  {
    assert Validate(r, fen, MatchOf(san, LegalSans(r, fen)).best).Ok?;
  }

  /** A settled token is the move that was read, or a marked correction of it. */
  lemma SettledMarked(r: Rules, fen: string, san: string, conf: real)
    requires Settle(r, fen, san, conf).Some?
    ensures var s := Settle(r, fen, san, conf).value;
      if s.corrected then s.san in s.suggestions && s.confidence in {CONF_AUTO_CORRECTED, CONF_AMBIGUOUS_PICK}
      else s.san == san && s.confidence == CleanConfidence(conf)
  {
    if Validate(r, fen, san).Err? {
      if PickDisambiguation(r, fen, san).Some? {
        var choices := Sort(Disambiguations(san, LegalSans(r, fen)), LexLe);
        assert choices[0] in choices;
      } else {
        BestIsRanked(san, LegalSans(r, fen));
      }
    }
  }

  lemma BestIsRanked(san: string, legal: seq<string>)
    requires MatchOf(san, legal).confident
    ensures MatchOf(san, legal).best in MatchOf(san, legal).ranked
  {
    assert MatchOf(san, legal).ranked[0] == MatchOf(san, legal).best;
  }

  lemma ValidatedStep(r: Rules, p: Position, fen: string, san: string)
    requires Lawful(r) && ReadFen(r, fen) == Some(p)
    ensures Validate(r, fen, san).Ok? <==> Next(r, p, san).Ok?
    ensures Next(r, p, san).Ok? ==>
      Validate(r, fen, san).value == r.write(Next(r, p, san).value) && Validate(r, fen, san).value != ""
      && ReadFen(r, Validate(r, fen, san).value) == Some(Next(r, p, san).value)
  {
    if Next(r, p, san).Ok? { ReadWritten(r, Next(r, p, san).value); }
  }

  // ---------- a draft over a whole sheet ----------

  /** The number of leading legal entries. */
  function LegalCount(out: seq<DraftMove>): (n: nat)
    ensures n <= |out|
    ensures forall i :: 0 <= i < n ==> out[i].isLegal
    ensures n < |out| ==> !out[n].isLegal
  {
    if out == [] || !out[0].isLegal then 0 else 1 + LegalCount(out[1..])
  }

  function DraftSans(out: seq<DraftMove>): (sans: seq<string>)
    ensures |sans| == |out|
    ensures forall i :: 0 <= i < |out| ==> sans[i] == out[i].san
  {
    seq(|out|, i requires 0 <= i < |out| => out[i].san)
  }

  /** Once blocked, no entry is legal. */
  lemma {:induction false} BlockedDraft(r: Rules, german: string -> string, cur: string, i: nat, tokens: seq<MoveToken>)
    ensures forall k :: 0 <= k < |tokens| ==>
      var m := Draft(r, german, State(cur, true), i, tokens)[k];
      m == DraftMove(i + k + 1, SideToMove(cur), german(tokens[k].text), "", None, false, tokens[k].text,
                     false, CONF_ILLEGAL, [])
    decreases |tokens|
  {
    if tokens == [] {
    } else {
      BlockedDraft(r, german, cur, i + 1, tokens[1..]);
      var all := Draft(r, german, State(cur, true), i, tokens);
      var rest := Draft(r, german, State(cur, true), i + 1, tokens[1..]);
      DraftCons(r, german, State(cur, true), i, tokens);
      assert all[1..] == rest;
      forall k | 0 <= k < |tokens|
        ensures all[k] == DraftMove(i + k + 1, SideToMove(cur), german(tokens[k].text), "", None, false,
                                    tokens[k].text, false, CONF_ILLEGAL, [])
      {
        if k > 0 { assert all[k] == rest[k - 1]; }
      }
    }
  }

  /** Every entry records its token; legality is a prefix, decides the FEN and the confidence; a move
      other than the one read is marked as corrected and is among its suggestions. */
  ghost predicate WellMarked(
    german: string -> string, out: seq<DraftMove>, tokens: seq<MoveToken>, i: nat, n: nat)
    requires |out| == |tokens|
  {
    forall k :: 0 <= k < |out| ==> MarkedEntry(german, out[k], tokens[k], i + k + 1, k < n)
  }

  predicate MarkedEntry(german: string -> string, m: DraftMove, t: MoveToken, ply: nat, legal: bool) {
    && m.ply == ply && m.recognizedText == t.text && m.clock == None && m.isLegal == legal
    && (m.isLegal <==> m.fenAfter != "")
    && (if m.corrected then
          m.isLegal && m.san in m.suggestions && m.confidence in {CONF_AUTO_CORRECTED, CONF_AMBIGUOUS_PICK}
        else
          && m.san == german(t.text)
          && m.confidence == if m.isLegal then CleanConfidence(t.confidence) else CONF_ILLEGAL)
  }

  lemma {:induction false} DraftMarked(r: Rules, german: string -> string, st: State, i: nat, tokens: seq<MoveToken>)
    requires Lawful(r)
    ensures var out := Draft(r, german, st, i, tokens);
      WellMarked(german, out, tokens, i, LegalCount(out))
    decreases |tokens|
  {
    if tokens == [] {
    } else {
      var m := DraftOf(r, st, i, german(tokens[0].text), tokens[0]);
      var out := Draft(r, german, st, i, tokens);
      EntryMarked(r, german, st, i, tokens[0]);
      if m.isLegal {
        DraftMarked(r, german, After(st, m), i + 1, tokens[1..]);
        assert out[1..] == Draft(r, german, After(st, m), i + 1, tokens[1..]);
        MarkedCons(german, m, out[1..], tokens, i, LegalCount(out[1..]));
        assert [m] + out[1..] == out;
      } else {
        BlockedMarked(r, german, st.cur, i + 1, tokens[1..]);
        assert out[1..] == Draft(r, german, State(st.cur, true), i + 1, tokens[1..]);
        StoppedCons(german, m, out[1..], tokens, i);
        assert [m] + out[1..] == out;
      }
    }
  }

  lemma BlockedMarked(r: Rules, german: string -> string, cur: string, i: nat, tokens: seq<MoveToken>)
    ensures WellMarked(german, Draft(r, german, State(cur, true), i, tokens), tokens, i, 0)
  {
    BlockedDraft(r, german, cur, i, tokens);
  }

  lemma StoppedCons(german: string -> string, m: DraftMove, rest: seq<DraftMove>, tokens: seq<MoveToken>, i: nat)
    requires |tokens| == |rest| + 1 && WellMarked(german, rest, tokens[1..], i + 1, 0)
    requires MarkedEntry(german, m, tokens[0], i + 1, false)
    ensures WellMarked(german, [m] + rest, tokens, i, LegalCount([m] + rest))
  {
    var out := [m] + rest;
    forall k | 0 <= k < |out| ensures MarkedEntry(german, out[k], tokens[k], i + k + 1, false) {
      if k > 0 { assert MarkedEntry(german, rest[k - 1], tokens[1..][k - 1], i + 1 + (k - 1) + 1, false); }
    }
  }

  lemma EntryMarked(r: Rules, german: string -> string, st: State, i: nat, t: MoveToken)
    requires Lawful(r)
    ensures var m := DraftOf(r, st, i, german(t.text), t); MarkedEntry(german, m, t, i + 1, m.isLegal)
  {
    var san := german(t.text);
    var m := DraftOf(r, st, i, san, t);
    if m.isLegal {
      SettledIsLegal(r, st.cur, san, t.confidence);
      SettledMarked(r, st.cur, san, t.confidence);
      ValidatedStep(r, ReadFen(r, st.cur).value, st.cur, m.san);
    }
  }

  lemma MarkedCons(german: string -> string, m: DraftMove, rest: seq<DraftMove>, tokens: seq<MoveToken>, i: nat, n: nat)
    requires |tokens| == |rest| + 1 && WellMarked(german, rest, tokens[1..], i + 1, n) && n == LegalCount(rest)
    requires MarkedEntry(german, m, tokens[0], i + 1, true)
    ensures WellMarked(german, [m] + rest, tokens, i, LegalCount([m] + rest))
  {
    var out := [m] + rest;
    assert out[1..] == rest;
    forall k | 0 <= k < |out| ensures MarkedEntry(german, out[k], tokens[k], i + k + 1, k < n + 1) {
      if k > 0 { assert MarkedEntry(german, rest[k - 1], tokens[1..][k - 1], i + 1 + (k - 1) + 1, k - 1 < n); }
    }
  }

  /** The legal entries of a draft are the longest playable line of its notations, and its recorded
      FENs are the positions of that line. */
  lemma {:induction false} DraftPlays(
    r: Rules, german: string -> string, p: Position, cur: string, i: nat, tokens: seq<MoveToken>)
    requires Lawful(r) && ReadFen(r, cur) == Some(p)
    ensures var out := Draft(r, german, State(cur, false), i, tokens);
      var n := LegalCount(out);
      var w := Walk(r, p, DraftSans(out));
      |w| == n + 1 && forall k :: 0 <= k < n ==> out[k].fenAfter == r.write(w[k + 1])
    decreases |tokens|
  {
    var out := Draft(r, german, State(cur, false), i, tokens);
    if tokens == [] {
    } else {
      var m := out[0];
      var san := german(tokens[0].text);
      var rest := Draft(r, german, After(State(cur, false), m), i + 1, tokens[1..]);
      assert out == [m] + rest && out[1..] == rest;
      if m.isLegal {
        SettledIsLegal(r, cur, san, tokens[0].confidence);
        ValidatedStep(r, p, cur, m.san);
        DraftPlays(r, german, Next(r, p, m.san).value, m.fenAfter, i + 1, tokens[1..]);
      } else {
        StoppedToken(r, p, cur, i, san, tokens[0]);
      }
      WalkCons(r, p, m, rest);
    }
  }

  /** A token that is not settled does not resolve. */
  lemma StoppedToken(r: Rules, p: Position, cur: string, i: nat, san: string, t: MoveToken)
    requires Lawful(r) && ReadFen(r, cur) == Some(p) && !DraftOf(r, State(cur, false), i, san, t).isLegal
    ensures DraftOf(r, State(cur, false), i, san, t).san == san && Next(r, p, san).Err?
  {
    if san == "" {
      PlaceholderIllegal(r, p, san);
    } else {
      ValidatedStep(r, p, cur, san);
    }
  }

  lemma WalkCons(r: Rules, p: Position, m: DraftMove, rest: seq<DraftMove>)
    ensures Walk(r, p, DraftSans([m] + rest))
      == if Next(r, p, m.san).Ok? then [p] + Walk(r, Next(r, p, m.san).value, DraftSans(rest)) else [p]
  {
    assert DraftSans([m] + rest)[1..] == DraftSans(rest);
  }

  // ---------- sides ----------

  lemma NextFlips(r: Rules, p: Position, san: string)
    requires Lawful(r) && Next(r, p, san).Ok?
    ensures r.blackToMove(Next(r, p, san).value) == !r.blackToMove(p)
  {
    ResolvedIsLegal(r, p, san);
  }

  lemma WalkStepTurns(r: Rules, p: Position, sans: seq<string>)
    requires Lawful(r)
    ensures var w := Walk(r, p, sans);
      forall k :: 0 <= k < |w| - 1 ==> r.blackToMove(w[k + 1]) == !r.blackToMove(w[k])
  {
    var w := Walk(r, p, sans);
    WalkIsLongestLine(NextOf(r), p, sans);
    forall k | 0 <= k < |w| - 1 ensures r.blackToMove(w[k + 1]) == !r.blackToMove(w[k]) {
      assert Leads(NextOf(r), sans, w, k);
      assert Next(r, w[k], sans[k]) == Ok(w[k + 1]);
      NextFlips(r, w[k], sans[k]);
    }
  }

  lemma {:induction false} Alternates(black: Position -> bool, w: seq<Position>, k: nat)
    requires k < |w| && forall j :: 0 <= j < |w| - 1 ==> black(w[j + 1]) == !black(w[j])
    ensures black(w[k]) == (black(w[0]) != (k % 2 == 1))
  {
    if k == 0 {
    } else {
      Alternates(black, w, k - 1);
      assert black(w[k - 1 + 1]) == !black(w[k - 1]);
    }
  }

  /** The turn passes with every move of a walk. */
  lemma WalkTurns(r: Rules, p: Position, sans: seq<string>, k: nat)
    requires Lawful(r) && k < |Walk(r, p, sans)|
    ensures r.blackToMove(Walk(r, p, sans)[k]) == (r.blackToMove(p) != (k % 2 == 1))
  {
    WalkStepTurns(r, p, sans);
    Alternates(r.blackToMove, Walk(r, p, sans), k);
  }

  ghost predicate SideKept(f: Stepper, st: State, i: nat, t: MoveToken) {
    f(st, i, t).side == SideToMove(st.cur) && (st.blocked ==> !f(st, i, t).isLegal)
  }

  lemma {:induction false} SideBy(f: Stepper, st: State, i: nat, tokens: seq<MoveToken>, k: nat)
    requires forall st: State, i: nat, t: MoveToken :: SideKept(f, st, i, t)
    requires k < |tokens|
    ensures var out := DraftBy(f, st, i, tokens);
      out[k].side == SideToMove(SideFen(out, st.cur, k))
    decreases k
  {
    assert SideKept(f, st, i, tokens[0]);
    if k == 0 {
    } else {
      var m := f(st, i, tokens[0]);
      SideBy(f, After(st, m), i + 1, tokens[1..], k - 1);
      SideOn(f, st, i, tokens, k - 1);
    }
  }

  /** From the rest of a draft to the draft. */
  lemma SideOn(f: Stepper, st: State, i: nat, tokens: seq<MoveToken>, k: nat)
    requires (forall st: State, i: nat, t: MoveToken :: SideKept(f, st, i, t)) && k + 1 < |tokens|
    ensures var m := f(st, i, tokens[0]);
      var rest := DraftBy(f, After(st, m), i + 1, tokens[1..]);
      && DraftBy(f, st, i, tokens)[k + 1] == rest[k]
      && SideFen(DraftBy(f, st, i, tokens), st.cur, k + 1) == SideFen(rest, After(st, m).cur, k)
  {
    var m := f(st, i, tokens[0]);
    var rest := DraftBy(f, After(st, m), i + 1, tokens[1..]);
    if m.isLegal {
      LegalSide(m, rest, st.cur, k);
    } else {
      assert SideKept(f, After(st, m), i + 1, tokens[1..][0]);
      StoppedBy(f, After(st, m), i + 1, tokens[1..]);
      StoppedSide(m, rest, st.cur, k);
    }
  }

  /** The position whose side an entry names. */
  function SideFen(out: seq<DraftMove>, cur: string, k: nat): string
    requires k < |out|
  {
    FenBefore(cur, out, if k < LegalCount(out) then k else LegalCount(out))
  }

  /** The FEN that the k-th token is read in. */
  function FenBefore(cur: string, out: seq<DraftMove>, k: nat): string
    requires k <= |out|
  {
    if k == 0 then cur else out[k - 1].fenAfter
  }

  lemma LegalSide(m: DraftMove, rest: seq<DraftMove>, cur: string, k: nat)
    requires k < |rest| && m.isLegal
    ensures SideFen([m] + rest, cur, k + 1) == SideFen(rest, m.fenAfter, k)
  {
    CountCons(m, rest);
    FenCons(cur, m, rest, if k < LegalCount(rest) then k else LegalCount(rest));
  }

  lemma StoppedSide(m: DraftMove, rest: seq<DraftMove>, cur: string, k: nat)
    requires k < |rest| && !m.isLegal && LegalCount(rest) == 0
    ensures SideFen([m] + rest, cur, k + 1) == cur == SideFen(rest, cur, k)
  {
    CountCons(m, rest);
  }

  lemma FenCons(cur: string, m: DraftMove, rest: seq<DraftMove>, k: nat)
    requires k <= |rest|
    ensures FenBefore(cur, [m] + rest, k + 1) == FenBefore(m.fenAfter, rest, k)
  {
  }

  lemma CountCons(m: DraftMove, rest: seq<DraftMove>)
    ensures LegalCount([m] + rest) == if m.isLegal then 1 + LegalCount(rest) else 0
  {
    assert ([m] + rest)[1..] == rest;
  }

  lemma StoppedBy(f: Stepper, st: State, i: nat, tokens: seq<MoveToken>)
    requires st.blocked && (tokens != [] ==> SideKept(f, st, i, tokens[0]))
    ensures LegalCount(DraftBy(f, st, i, tokens)) == 0
  {
  }

  /** The side recorded with the k-th entry is the side to move before it, and stays that of the
      first entry that is not legal from there on. */
  lemma DraftSide(r: Rules, german: string -> string, st: State, i: nat, tokens: seq<MoveToken>, k: nat)
    requires k < |tokens|
    ensures var out := Draft(r, german, st, i, tokens);
      var n := LegalCount(out);
      var j := if k < n then k else n;
      out[k].side == SideToMove(if j == 0 then st.cur else out[j - 1].fenAfter)
  {
    var f := StepperOf(r, german);
    forall st: State, i: nat, t: MoveToken ensures SideKept(f, st, i, t) {
      assert f(st, i, t) == DraftOf(r, st, i, german(t.text), t);
    }
    SideBy(f, st, i, tokens, k);
  }
}
