/** The three replay loops agree: the draft made on the server, the live replay on the review page,
    and the authoritative replay on save. The two chess libraries are assumed to agree. Parsed games go
    through the same gate. */
module Agreement {
  import opened Text
  import opened ChessRules
  import opened SanMoves
  import R = Reconciliation
  import V = Review
  import G = SaveGate
  import M = Movetext
  import T = PgnRoundTrip
  import P = PgnParser
  import W = PgnWriter
  import H = ParsedGames
  import Clock
  import MovetextWriter

  /** The browser's library accepts the same FENs and plays the same moves to the same FENs. */
  ghost predicate SharedRules(r: Rules, c: V.Client) {
    && (forall fen: string :: fen != "" ==> (c.loads(fen) <==> r.read(fen).Some?))
    && (forall fen: string, san: string :: fen != "" && c.loads(fen) ==>
          c.move(fen, san) == match Validate(r, fen, san) case Ok(to) => Some(to) case Err(_) => None)
  }

  /** A client built from the server's rules: agreement is possible. */
  function Mirror(r: Rules): V.Client {
    V.Client(fen => r.read(fen).Some?,
             (fen, san) => match Validate(r, fen, san) case Ok(to) => Some(to) case Err(_) => None,
             fen => LegalSans(r, fen))
  }

  lemma MirrorShares(r: Rules)
    ensures SharedRules(r, Mirror(r))
  {
  }

  lemma SharedIsLawful(r: Rules, c: V.Client, p: Position, fen: string, san: string)
    requires Lawful(r) && SharedRules(r, c) && fen != "" && ReadFen(r, fen) == Some(p)
    ensures c.loads(fen)
    ensures c.move(fen, san).Some? <==> Next(r, p, san).Ok?
    ensures Next(r, p, san).Ok? ==>
      c.move(fen, san).value == r.write(Next(r, p, san).value) && c.move(fen, san).value != ""
      && ReadFen(r, c.move(fen, san).value) == Some(Next(r, p, san).value)
  {
    assert r.read(fen) == Some(p);
    R.ValidatedStep(r, p, fen, san);
  }

  // ---------- review page and save gate ----------

  /** What the page sends on save. */
  function Payload(out: seq<V.EditMove>): (inputs: seq<G.MoveInput>)
    ensures |inputs| == |out|
    ensures forall i :: 0 <= i < |out| ==> inputs[i] == G.MoveInput(i + 1, out[i].san, out[i].clock)
  {
    seq(|out|, i requires 0 <= i < |out| => G.MoveInput(i + 1, out[i].san, out[i].clock))
  }

  function SentSans(out: seq<V.EditMove>): (sans: seq<string>)
    ensures |sans| == |out|
    ensures forall i :: 0 <= i < |out| ==> sans[i] == Trim(out[i].san)
  {
    seq(|out|, i requires 0 <= i < |out| => Trim(out[i].san))
  }

  /** One ply of the page against the server's rules. */
  lemma PlyAgrees(r: Rules, c: V.Client, start: string, p: Position, fen: string, i: nat, ply: V.Ply)
    requires Lawful(r) && SharedRules(r, c) && fen != "" && ReadFen(r, fen) == Some(p)
    ensures V.RebuildPly(c, start, V.State(fen, false), i, ply).Some?
    ensures var m := V.RebuildPly(c, start, V.State(fen, false), i, ply).value;
      var next := Next(r, p, Trim(m.san));
      && (m.legality.Legal? <==> next.Ok?)
      && (m.legality.Legal? ==> m.fenAfter == r.write(next.value) && m.fenAfter != ""
                                && ReadFen(r, m.fenAfter) == Some(next.value))
      && Next(r, p, Trim(m.san)) == Next(r, p, ply.san)
  {
    SharedIsLawful(r, c, p, fen, ply.san);
    ResolveTrimmed(r, p, ply.san);
    if V.IsPlaceholder(ply.san) { PlaceholdersAlike(r, p, ply.san); }
  }

  lemma PlaceholdersAlike(r: Rules, p: Position, san: string)
    requires Lawful(r) && V.IsPlaceholder(san)
    ensures Next(r, p, san) == Next(r, p, Trim("?")) == Err(IllegalMove)
  {
    PlaceholderIllegal(r, p, san);
    TrimSolid("?");
    PlaceholderIllegal(r, p, "?");
  }

  lemma WalkSent(r: Rules, p: Position, m: V.EditMove, rest: seq<V.EditMove>)
    ensures var next := Next(r, p, Trim(m.san));
      Walk(r, p, SentSans([m] + rest)) == if next.Ok? then [p] + Walk(r, next.value, SentSans(rest)) else [p]
  {
    assert SentSans([m] + rest)[1..] == SentSans(rest);
  }

  /** The page's legal plies are the longest playable line of what it sends, with its positions. */
  lemma {:induction false} RebuiltWalk(
    r: Rules, c: V.Client, start: string, p: Position, fen: string, i: nat, plies: seq<V.Ply>)
    requires Lawful(r) && SharedRules(r, c) && fen != "" && ReadFen(r, fen) == Some(p)
    requires V.RebuildFrom(V.StepOf(c, start), V.State(fen, false), i, plies).Some?
    ensures var out := V.RebuildFrom(V.StepOf(c, start), V.State(fen, false), i, plies).value;
      var n := V.LegalCount(out);
      var w := Walk(r, p, SentSans(out));
      |w| == n + 1 && forall k :: 0 <= k < n ==> out[k].fenAfter == r.write(w[k + 1])
    decreases |plies|
  {
    if plies == [] {
    } else {
      var m, rest := RebuiltCons(V.StepOf(c, start), V.State(fen, false), i, plies);
      PlyAgrees(r, c, start, p, fen, i, plies[0]);
      WalkSent(r, p, m, rest);
      if m.legality.Legal? {
        var q := Next(r, p, Trim(m.san)).value;
        RebuiltWalk(r, c, start, q, m.fenAfter, i + 1, plies[1..]);
        WalkCons(r, p, q, m, rest);
      }
    }
  }

  lemma WalkCons(r: Rules, p: Position, q: Position, m: V.EditMove, rest: seq<V.EditMove>)
    requires m.legality.Legal? && m.fenAfter == r.write(q)
    requires Walk(r, p, SentSans([m] + rest)) == [p] + Walk(r, q, SentSans(rest))
    requires |Walk(r, q, SentSans(rest))| == V.LegalCount(rest) + 1
    requires forall k :: 0 <= k < V.LegalCount(rest) ==> rest[k].fenAfter == r.write(Walk(r, q, SentSans(rest))[k + 1])
    ensures |Walk(r, p, SentSans([m] + rest))| == V.LegalCount(rest) + 2
    ensures forall k :: 0 <= k < V.LegalCount(rest) + 1 ==>
      ([m] + rest)[k].fenAfter == r.write(Walk(r, p, SentSans([m] + rest))[k + 1])
  {
  }

  /** The first entry and the rest. */
  lemma RebuiltCons(f: V.Step, st: V.State, i: nat, plies: seq<V.Ply>) returns (m: V.EditMove, rest: seq<V.EditMove>)
    requires plies != [] && V.RebuildFrom(f, st, i, plies).Some?
    ensures f(st, i, plies[0]) == Some(m) && V.RebuildFrom(f, V.After(st, m), i + 1, plies[1..]) == Some(rest)
    ensures V.RebuildFrom(f, st, i, plies) == Some([m] + rest)
    ensures V.LegalCount([m] + rest) == if m.legality.Legal? then 1 + V.LegalCount(rest) else 0
  {
    m := f(st, i, plies[0]).value;
    rest := V.RebuildFrom(f, V.After(st, m), i + 1, plies[1..]).value;
    assert ([m] + rest)[1..] == rest;
  }

  /** The save button is enabled exactly for what the server will accept: for a readable start
      position the gate succeeds if and only if every ply of the page is legal, and otherwise it
      fails at the first ply that is not. The recorded positions are those of the page. */
  lemma GateAgreesWithPage(
    r: Rules, c: V.Client, h: G.DraftHeader, startFen: string, plies: seq<V.Ply>,
    v: G.Verified, err: Option<Error>)
    requires Lawful(r) && SharedRules(r, c) && V.Rebuilt(c, startFen, plies).Some?
    requires G.IsVerified(r, h, StartOf(startFen), Payload(V.Rebuilt(c, startFen, plies).value), v, err)
    ensures var out := V.Rebuilt(c, startFen, plies).value;
      if ReadFen(r, StartOf(startFen)).None? then err == Some(BadFen) && v.failedAt == 0
      else
        && (err == None <==> forall m :: m in out ==> m.legality.Legal?)
        && (err != None ==> v.failedAt == V.LegalCount(out))
        && (err == None ==>
              |v.moves| == |out| && forall k :: 0 <= k < |out| ==> v.moves[k].fenAfter == out[k].fenAfter)
  {
    var out, start := V.Rebuilt(c, startFen, plies).value, StartOf(startFen);
    var first := ReadFen(r, start);
    if first.Some? {
      RebuiltWalk(r, c, start, first.value, start, 0, plies);
      AllLegalCount(out);
      GateOnWalk(r, h, start, first.value, out, v, err);
    }
  }

  /** The gate on what the page sends, when the page's legal plies follow the walk. */
  lemma GateOnWalk(
    r: Rules, h: G.DraftHeader, start: string, p: Position, out: seq<V.EditMove>, v: G.Verified, err: Option<Error>)
    requires ReadFen(r, start) == Some(p) && G.IsVerified(r, h, start, Payload(out), v, err)
    requires |Walk(r, p, SentSans(out))| == V.LegalCount(out) + 1
    requires forall k :: 0 <= k < V.LegalCount(out) ==> out[k].fenAfter == r.write(Walk(r, p, SentSans(out))[k + 1])
    ensures err == None <==> V.LegalCount(out) == |out|
    ensures err != None ==> v.failedAt == V.LegalCount(out)
    ensures err == None ==>
      |v.moves| == |out| && forall k :: 0 <= k < |out| ==> v.moves[k].fenAfter == out[k].fenAfter
  {
    assert G.TrimmedSans(Payload(out)) == SentSans(out);
  }

  lemma {:induction false} AllLegalCount(out: seq<V.EditMove>)
    ensures V.LegalCount(out) == |out| <==> forall m :: m in out ==> m.legality.Legal?
  {
    if V.LegalCount(out) < |out| { assert out[V.LegalCount(out)] in out; }
  }

  /** The page and the gate agree on whether a list can be saved if and only if the list is not empty
      or the start position can be read. */
  lemma GateAgreesExactly(
    r: Rules, c: V.Client, h: G.DraftHeader, startFen: string, plies: seq<V.Ply>,
    v: G.Verified, err: Option<Error>)
    requires Lawful(r) && SharedRules(r, c) && V.Rebuilt(c, startFen, plies).Some?
    requires G.IsVerified(r, h, StartOf(startFen), Payload(V.Rebuilt(c, startFen, plies).value), v, err)
    ensures var out := V.Rebuilt(c, startFen, plies).value;
      (err == None <==> forall m :: m in out ==> m.legality.Legal?)
      <==> plies != [] || ReadFen(r, StartOf(startFen)).Some?
  {
    var out := V.Rebuilt(c, startFen, plies).value;
    GateAgreesWithPage(r, c, h, startFen, plies, v, err);
    if ReadFen(r, StartOf(startFen)).None? && plies != [] {
      V.RebuiltEntry(c, startFen, plies, 0);
      assert !c.loads(StartOf(startFen));
      assert out[0] in out && !out[0].legality.Legal?;
    }
  }

  // ---------- draft and review page ----------

  function ToPlies(draft: seq<R.DraftMove>): (plies: seq<V.Ply>)
    ensures |plies| == |draft|
    ensures forall i :: 0 <= i < |draft| ==>
      plies[i] == V.Ply(draft[i].san, draft[i].clock, draft[i].recognizedText, draft[i].confidence)
  {
    seq(|draft|, i requires 0 <= i < |draft| =>
      V.Ply(draft[i].san, draft[i].clock, draft[i].recognizedText, draft[i].confidence))
  }

  /** What the page sends resolves like what it was given. */
  lemma SentLikeGiven(r: Rules, c: V.Client, startFen: string, plies: seq<V.Ply>, k: nat, q: Position)
    requires Lawful(r) && V.Rebuilt(c, startFen, plies).Some? && k < |plies|
    ensures |V.Rebuilt(c, startFen, plies).value| == |plies|
    ensures Next(r, q, Trim(V.Rebuilt(c, startFen, plies).value[k].san)) == Next(r, q, plies[k].san)
  {
    SentSpelling(c, startFen, plies, k);
    if V.IsPlaceholder(plies[k].san) { PlaceholdersAlike(r, q, plies[k].san); }
    else { ResolveTrimmed(r, q, plies[k].san); }
  }

  lemma SentSpelling(c: V.Client, startFen: string, plies: seq<V.Ply>, k: nat)
    requires V.Rebuilt(c, startFen, plies).Some? && k < |plies|
    ensures |V.Rebuilt(c, startFen, plies).value| == |plies|
    ensures V.Rebuilt(c, startFen, plies).value[k].san
      == if V.IsPlaceholder(plies[k].san) then "?" else plies[k].san
  {
    V.RebuiltEntry(c, startFen, plies, k);
  }

  /** Opening a draft on the review page reproduces its legal prefix and positions. */
  lemma PageAgreesWithDraft(
    r: Rules, c: V.Client, german: string -> string, startFen: string, tokens: seq<R.MoveToken>)
    requires Lawful(r) && SharedRules(r, c) && ReadFen(r, StartOf(startFen)).Some?
    ensures var draft := R.Draft(r, german, R.InitialState(startFen), 0, tokens);
      var page := V.Rebuilt(c, startFen, ToPlies(draft));
      && page.Some? && |page.value| == |draft|
      && V.LegalCount(page.value) == R.LegalCount(draft)
      && forall k :: 0 <= k < R.LegalCount(draft) ==> page.value[k].fenAfter == draft[k].fenAfter
  {
    var start := StartOf(startFen);
    var p := ReadFen(r, start).value;
    var draft := R.Draft(r, german, R.InitialState(startFen), 0, tokens);
    var plies := ToPlies(draft);
    R.DraftPlays(r, german, p, start, 0, tokens);
    PageOpens(r, c, startFen, plies);
    var out := V.Rebuilt(c, startFen, plies).value;
    V.RebuiltReplay(c, startFen, plies);
    RebuiltWalk(r, c, start, p, start, 0, plies);
    forall k, q: Position | 0 <= k < |draft|
      ensures NextOf(r)(q, SentSans(out)[k]) == NextOf(r)(q, R.DraftSans(draft)[k])
    {
      SentLikeGiven(r, c, startFen, plies, k, q);
    }
    WalkAlike(NextOf(r), p, SentSans(out), R.DraftSans(draft));
  }

  lemma PageOpens(r: Rules, c: V.Client, startFen: string, plies: seq<V.Ply>)
    requires Lawful(r) && SharedRules(r, c) && ReadFen(r, StartOf(startFen)).Some?
    ensures V.Rebuilt(c, startFen, plies).Some?
  {
    var start := StartOf(startFen);
    Opens(r, c, start, ReadFen(r, start).value, start, false, 0, plies);
  }

  lemma {:induction false} Opens(
    r: Rules, c: V.Client, start: string, p: Position, fen: string, blocked: bool, i: nat, plies: seq<V.Ply>)
    requires Lawful(r) && SharedRules(r, c) && fen != "" && ReadFen(r, fen) == Some(p)
    ensures V.RebuildFrom(V.StepOf(c, start), V.State(fen, blocked), i, plies).Some?
    decreases |plies|
  {
    if plies == [] {
    } else {
      SharedIsLawful(r, c, p, fen, plies[0].san);
      var m := V.RebuildPly(c, start, V.State(fen, blocked), i, plies[0]).value;
      if m.legality.Legal? {
        Opens(r, c, start, Next(r, p, plies[0].san).value, m.fenAfter, blocked, i + 1, plies[1..]);
      } else {
        Opens(r, c, start, p, fen, true, i + 1, plies[1..]);
      }
    }
  }

  /** A sheet read without a stop can be saved as it is, with the positions of the draft. */
  lemma CleanSheetSaves(
    r: Rules, c: V.Client, german: string -> string, h: G.DraftHeader, startFen: string,
    tokens: seq<R.MoveToken>, v: G.Verified, err: Option<Error>)
    requires Lawful(r) && SharedRules(r, c) && ReadFen(r, StartOf(startFen)).Some?
    requires var draft := R.Draft(r, german, R.InitialState(startFen), 0, tokens);
      var page := V.Rebuilt(c, startFen, ToPlies(draft));
      page.Some? && G.IsVerified(r, h, StartOf(startFen), Payload(page.value), v, err)
    ensures var draft := R.Draft(r, german, R.InitialState(startFen), 0, tokens);
      && (err == None <==> R.LegalCount(draft) == |draft|)
      && (err != None ==> v.failedAt == R.LegalCount(draft))
      && (err == None ==> forall k :: 0 <= k < |draft| ==>
            k < |v.moves| && v.moves[k].fenAfter == draft[k].fenAfter)
  {
    var draft := R.Draft(r, german, R.InitialState(startFen), 0, tokens);
    PageAgreesWithDraft(r, c, german, startFen, tokens);
    GateAgreesWithPage(r, c, h, startFen, ToPlies(draft), v, err);
    AllLegalCount(V.Rebuilt(c, startFen, ToPlies(draft)).value);
  }

  /** Replaying the legal prefix of a draft from the start gives exactly its recorded FENs. */
  lemma DraftReplays(
    r: Rules, german: string -> string, startFen: string, tokens: seq<R.MoveToken>, a: Replay)
    requires Lawful(r) && ReadFen(r, StartOf(startFen)).Some?
    requires var draft := R.Draft(r, german, R.InitialState(startFen), 0, tokens);
      IsReplay(r, StartOf(startFen), R.DraftSans(draft)[..R.LegalCount(draft)], a)
    ensures var draft := R.Draft(r, german, R.InitialState(startFen), 0, tokens);
      && a.error == None && a.failedAt == -1 && |a.positions| == R.LegalCount(draft)
      && forall k :: 0 <= k < R.LegalCount(draft) ==> a.positions[k] == draft[k].fenAfter
  {
    var start := StartOf(startFen);
    var p := ReadFen(r, start).value;
    var draft := R.Draft(r, german, R.InitialState(startFen), 0, tokens);
    R.DraftPlays(r, german, p, start, 0, tokens);
    PrefixReplays(r, start, p, R.DraftSans(draft), R.LegalCount(draft), a);
  }

  lemma PrefixReplays(r: Rules, start: string, p: Position, sans: seq<string>, n: nat, a: Replay)
    requires ReadFen(r, start) == Some(p) && n <= |sans| && |Walk(r, p, sans)| == n + 1
    requires IsReplay(r, start, sans[..n], a)
    ensures a.error == None && a.failedAt == -1 && |a.positions| == n
    ensures forall k :: 0 <= k < n ==> a.positions[k] == r.write(Walk(r, p, sans)[k + 1])
  {
    WalkPrefix(NextOf(r), p, sans, n);
  }

  /** On the legal prefix and at the first stop the draft and the page name the same side if and only
      if they read the same side from the start FEN; behind it the page keeps alternating while the
      draft keeps the side of the stop. */
  lemma SidesAgree(
    r: Rules, c: V.Client, german: string -> string, startFen: string, tokens: seq<R.MoveToken>, k: nat)
    requires Lawful(r) && SharedRules(r, c) && ReadFen(r, StartOf(startFen)).Some? && k < |tokens|
    ensures var draft := R.Draft(r, german, R.InitialState(startFen), 0, tokens);
      var page := V.Rebuilt(c, startFen, ToPlies(draft));
      var n := R.LegalCount(draft);
      var alike := V.BlackStarts(StartOf(startFen)) == BlackField(StartOf(startFen));
      && page.Some? && |page.value| == |draft|
      && (k <= n ==> (draft[k].side == page.value[k].side <==> alike))
      && (k > n ==> draft[k].side == draft[n].side
                    && (draft[k].side == page.value[k].side <==> ((k - n) % 2 == 0 <==> alike)))
  {
    var start := StartOf(startFen);
    var draft := R.Draft(r, german, R.InitialState(startFen), 0, tokens);
    var n := R.LegalCount(draft);
    PageOpens(r, c, startFen, ToPlies(draft));
    PageSideAt(c, startFen, ToPlies(draft), k);
    DraftSideAt(r, german, startFen, tokens, k);
    if k > n { DraftSideAt(r, german, startFen, tokens, n); }
    SameParity(BlackField(start), V.BlackStarts(start), if k < n then k else n, k);
  }

  lemma PageSideAt(c: V.Client, startFen: string, plies: seq<V.Ply>, k: nat)
    requires V.Rebuilt(c, startFen, plies).Some? && k < |plies|
    ensures |V.Rebuilt(c, startFen, plies).value| == |plies|
    ensures V.Rebuilt(c, startFen, plies).value[k].side
      == if V.BlackStarts(StartOf(startFen)) != (k % 2 == 1) then "black" else "white"
  {
    V.RebuiltChain(c, startFen, plies, k);
    V.SideFormula(k, StartOf(startFen));
  }

  lemma SameParity(a: bool, b: bool, n: nat, k: nat)
    requires n <= k
    ensures "black" != "white"
    ensures (a != (n % 2 == 1)) == (b != (k % 2 == 1)) <==> ((k - n) % 2 == 0 <==> a == b)
  {
    assert "black"[0] != "white"[0];
  }

  lemma DraftSideAt(r: Rules, german: string -> string, startFen: string, tokens: seq<R.MoveToken>, k: nat)
    requires Lawful(r) && ReadFen(r, StartOf(startFen)).Some? && k < |tokens|
    ensures var draft := R.Draft(r, german, R.InitialState(startFen), 0, tokens);
      var j := if k < R.LegalCount(draft) then k else R.LegalCount(draft);
      draft[k].side == if BlackField(StartOf(startFen)) != (j % 2 == 1) then "black" else "white"
  {
    var start := StartOf(startFen);
    var p := ReadFen(r, start).value;
    var draft := R.Draft(r, german, R.InitialState(startFen), 0, tokens);
    var j := if k < R.LegalCount(draft) then k else R.LegalCount(draft);
    R.DraftSide(r, german, R.State(start, false), 0, tokens, k);
    R.DraftPlays(r, german, p, start, 0, tokens);
    var w := Walk(r, p, R.DraftSans(draft));
    R.WalkTurns(r, p, R.DraftSans(draft), j);
    R.ReadWritten(r, w[j]);
    assert r.read(start) == Some(p);
  }

  // ---------- parsed games ----------

  function MoveSans(moves: seq<M.Move>): (sans: seq<string>)
    ensures |sans| == |moves|
    ensures forall i :: 0 <= i < |moves| ==> sans[i] == moves[i].san
  {
    seq(|moves|, i requires 0 <= i < |moves| => moves[i].san)
  }

  /** Replaying moves follows the walk of their notations. */
  lemma {:induction false} ReplayedWalk(r: Rules, p: Position, moves: seq<M.Move>)
    ensures var w := Walk(r, p, MoveSans(moves));
      var back := T.Replayed(r, p, moves);
      |back| == |w| - 1 && forall k :: 0 <= k < |back| ==> ReplayedAt(r, w[k], w[k + 1], moves[k], back[k])
    decreases |moves|
  {
    if moves == [] {
    } else {
      assert MoveSans(moves)[1..] == MoveSans(moves[1..]);
      if Resolve(r, p, moves[0].san).Ok? {
        var q := Next(r, p, moves[0].san).value;
        ReplayedWalk(r, q, moves[1..]);
        WalkOn(r, p, MoveSans(moves), q);
        var w, back := Walk(r, p, MoveSans(moves)), T.Replayed(r, p, moves);
        assert back[1..] == T.Replayed(r, q, moves[1..]);
        forall k | 0 <= k < |back| ensures ReplayedAt(r, w[k], w[k + 1], moves[k], back[k]) {
          if k > 0 { assert ReplayedAt(r, w[1..][k - 1], w[1..][k], moves[1..][k - 1], back[1..][k - 1]); }
        }
      }
    }
  }

  /** back is mv played from p to q, in canonical spelling. */
  ghost predicate ReplayedAt(r: Rules, p: Position, q: Position, mv: M.Move, back: M.Move) {
    && back.fromFen == r.write(p) && back.toFen == r.write(q) && back.clock == T.NormalClock(mv.clock)
    && Resolve(r, p, mv.san).Ok? && back.san == Resolve(r, p, mv.san).value.1
  }

  /** A canonical line is walked to its end, through the positions it records. */
  lemma CanonicalWalk(r: Rules, p: Position, moves: seq<M.Move>)
    requires Lawful(r) && T.CanonicalLine(r, p, moves)
    ensures var w := Walk(r, p, MoveSans(moves));
      |w| == |moves| + 1
      && forall k :: 0 <= k < |moves| ==> moves[k].fromFen == r.write(w[k]) && moves[k].toFen == r.write(w[k + 1])
  {
    var w := Walk(r, p, MoveSans(moves));
    ReplayedWalk(r, p, moves);
    T.CanonicalReplays(r, p, moves);
    var back := T.NormalMoves(moves);
    forall k | 0 <= k < |moves| ensures moves[k].fromFen == r.write(w[k]) && moves[k].toFen == r.write(w[k + 1]) {
      assert ReplayedAt(r, w[k], w[k + 1], moves[k], back[k]);
    }
  }

  /** mv is tok played from p to q. */
  predicate PlayedAt(r: Rules, p: Position, q: Position, tok: M.Token, mv: M.Move) {
    mv.fromFen == r.write(p) && mv.toFen == r.write(q) && mv.clock == Clock.ClockFromComment(tok.comment)
  }

  lemma PlayedOn(r: Rules, p: Position, toks: seq<M.Token>, q: Position)
    requires toks != [] && Next(r, p, toks[0].san) == Ok(q)
    ensures var moves := P.PlayTokens(r, p, toks);
      moves != [] && PlayedAt(r, p, q, toks[0], moves[0]) && moves[1..] == P.PlayTokens(r, q, toks[1..])
  {
  }

  /** Playing tokens follows the walk of their texts. */
  lemma {:induction false} PlayedWalk(r: Rules, p: Position, toks: seq<M.Token>)
    ensures var w := Walk(r, p, MovetextWriter.TokenSans(toks));
      var moves := P.PlayTokens(r, p, toks);
      |moves| == |w| - 1 && forall k :: 0 <= k < |moves| ==> PlayedAt(r, w[k], w[k + 1], toks[k], moves[k])
    decreases |toks|
  {
    if toks == [] {
    } else {
      var w, moves := Walk(r, p, MovetextWriter.TokenSans(toks)), P.PlayTokens(r, p, toks);
      assert MovetextWriter.TokenSans(toks)[1..] == MovetextWriter.TokenSans(toks[1..]);
      if Next(r, p, toks[0].san).Ok? {
        var q := Next(r, p, toks[0].san).value;
        PlayedWalk(r, q, toks[1..]);
        PlayedOn(r, p, toks, q);
        WalkOn(r, p, MovetextWriter.TokenSans(toks), q);
        forall k | 0 <= k < |moves| ensures PlayedAt(r, w[k], w[k + 1], toks[k], moves[k]) {
          if k > 0 { assert moves[k] == moves[1..][k - 1] && toks[k] == toks[1..][k - 1]; }
        }
      }
    }
  }

  /** Parsed moves are canonical and legal, one after the other, through the positions that the tokens
      reach; they end where the tokens end or at the first token that does not resolve. */
  lemma ParsedLine(r: Rules, p: Position, toks: seq<M.Token>)
    requires Lawful(r)
    ensures var moves := P.PlayTokens(r, p, toks);
      var w := Walk(r, p, MovetextWriter.TokenSans(toks));
      && T.CanonicalLine(r, p, moves) && |moves| == |w| - 1
      && (forall k :: 0 <= k < |moves| ==> moves[k].fromFen == r.write(w[k]) && moves[k].toFen == r.write(w[k + 1]))
      && (|moves| < |toks| ==> Next(r, w[|moves|], toks[|moves|].san).Err?)
  {
    H.PlayedCanonical(r, p, toks);
    PlayedWalk(r, p, toks);
    var w, moves := Walk(r, p, MovetextWriter.TokenSans(toks)), P.PlayTokens(r, p, toks);
    forall k | 0 <= k < |moves| ensures moves[k].fromFen == r.write(w[k]) && moves[k].toFen == r.write(w[k + 1]) {
      assert PlayedAt(r, w[k], w[k + 1], toks[k], moves[k]);
    }
    WalkIsLongestLine(NextOf(r), p, MovetextWriter.TokenSans(toks));
  }

  function GameInputs(moves: seq<M.Move>): (inputs: seq<G.MoveInput>)
    ensures |inputs| == |moves|
    ensures forall i :: 0 <= i < |moves| ==> inputs[i] == G.MoveInput(i + 1, moves[i].san, moves[i].clock)
  {
    seq(|moves|, i requires 0 <= i < |moves| => G.MoveInput(i + 1, moves[i].san, moves[i].clock))
  }

  /** What the gate makes of a parsed game: accepted, with the same spelling and positions. */
  ghost predicate SavesAsParsed(g: W.Game, v: G.Verified, err: Option<Error>) {
    && err == None && v.failedAt == -1 && |v.moves| == |g.moves|
    && forall k :: 0 <= k < |g.moves| ==> v.moves[k].fenAfter == g.moves[k].toFen && v.moves[k].san == g.moves[k].san
  }

  /** The positions of a game form a chain from its start position. */
  ghost predicate Chained(r: Rules, g: W.Game) {
    && (forall k :: 0 < k < |g.moves| ==> g.moves[k].fromFen == g.moves[k - 1].toFen)
    && (g.moves != [] ==>
          ReadFen(r, g.startFen).Some? && g.moves[0].fromFen == r.write(ReadFen(r, g.startFen).value))
  }

  /** Every game parsed from any text is a chain of positions; with a readable start position it
      passes the save gate. */
  lemma ParsedGameSaves(r: Rules, text: string, g: W.Game, h: G.DraftHeader, v: G.Verified, err: Option<Error>)
    requires Lawful(r) && g in P.Parsed(r, text)
    ensures Chained(r, g)
    ensures ReadFen(r, g.startFen).Some? && G.IsVerified(r, h, g.startFen, GameInputs(g.moves), v, err) ==>
      SavesAsParsed(g, v, err)
  {
    var chunk := H.ChunkOf(r, P.Chunks(P.TextLines(text), [], false), g);
    H.ChunkLine(r, chunk);
    if ReadFen(r, g.startFen).Some? {
      assert ReadFen(r, T.Start(g)) == ReadFen(r, g.startFen);
      CanonicalChain(r, g);
      if G.IsVerified(r, h, g.startFen, GameInputs(g.moves), v, err) { ReplaysParsed(r, g, h, v, err); }
    }
  }

  lemma CanonicalChain(r: Rules, g: W.Game)
    requires Lawful(r) && ReadFen(r, g.startFen).Some?
    requires T.CanonicalLine(r, ReadFen(r, g.startFen).value, g.moves)
    ensures Chained(r, g)
  {
    CanonicalWalk(r, ReadFen(r, g.startFen).value, g.moves);
  }

  lemma ReplaysParsed(r: Rules, g: W.Game, h: G.DraftHeader, v: G.Verified, err: Option<Error>)
    requires Lawful(r) && ReadFen(r, g.startFen).Some?
    requires T.CanonicalLine(r, ReadFen(r, g.startFen).value, g.moves)
    requires G.IsVerified(r, h, g.startFen, GameInputs(g.moves), v, err)
    ensures SavesAsParsed(g, v, err)
  {
    var p, inputs := ReadFen(r, g.startFen).value, GameInputs(g.moves);
    CanonicalWalk(r, p, g.moves);
    SentAsParsed(r, p, g.moves);
    VerifiedWalk(r, h, g.startFen, inputs, v, err);
    forall k | 0 <= k < |g.moves|
      ensures v.moves[k].fenAfter == g.moves[k].toFen && v.moves[k].san == g.moves[k].san
    {
      assert v.moves[k].san == Trim(inputs[k].san);
    }
  }

  lemma SentAsParsed(r: Rules, p: Position, moves: seq<M.Move>)
    requires Lawful(r) && T.CanonicalLine(r, p, moves)
    ensures G.TrimmedSans(GameInputs(moves)) == MoveSans(moves)
    ensures forall k :: 0 <= k < |moves| ==> Trim(GameInputs(moves)[k].san) == moves[k].san
  {
    SolidSans(r, p, moves);
  }

  /** What the gate records for a list that is playable to its end. */
  lemma VerifiedWalk(
    r: Rules, h: G.DraftHeader, start: string, inputs: seq<G.MoveInput>, v: G.Verified, err: Option<Error>)
    requires ReadFen(r, start).Some? && G.IsVerified(r, h, start, inputs, v, err)
    requires |Walk(r, ReadFen(r, start).value, G.TrimmedSans(inputs))| == |inputs| + 1
    ensures err == None && v.failedAt == -1 && |v.moves| == |inputs|
    ensures var w := Walk(r, ReadFen(r, start).value, G.TrimmedSans(inputs));
      forall k :: 0 <= k < |inputs| ==>
        v.moves[k].fenAfter == r.write(w[k + 1]) && v.moves[k].san == Trim(inputs[k].san)
  {
  }

  lemma {:induction false} SolidSans(r: Rules, p: Position, moves: seq<M.Move>)
    requires Lawful(r) && T.CanonicalLine(r, p, moves)
    ensures forall k :: 0 <= k < |moves| ==> Trim(moves[k].san) == moves[k].san
  {
    T.LineSafe(r, p, moves);
    forall k | 0 <= k < |moves| ensures Trim(moves[k].san) == moves[k].san {
      assert moves[k] in moves;
      TrimSolid(moves[k].san);
    }
  }
}
