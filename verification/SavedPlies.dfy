/** What a saved ply records, ply by ply (internal/httpapi/games.go). */
module SavedPlies {
  import opened Text
  import opened ChessRules
  import opened SanMoves
  import G = SaveGate
  import R = Reconciliation

  /** The k-th record: its number, the trimmed text and the clock of the k-th input, the side that the
      start position gives it, and the FEN that its move leads to from the record before it. */
  ghost predicate Records(
    r: Rules, next: Player, start: string, inputs: seq<G.MoveInput>, moves: seq<G.VerifiedMove>, k: nat)
    requires k < |inputs| && k < |moves|
  {
    var before := ReadFen(r, if k == 0 then start else moves[k - 1].fenAfter);
    && moves[k].ply == k + 1
    && moves[k].san == Trim(inputs[k].san)
    && moves[k].clock == inputs[k].clock
    && moves[k].side == (if BlackField(start) != (k % 2 == 1) then "black" else "white")
    && before.Some?
    && next(before.value, Trim(inputs[k].san)).Ok?
    && moves[k].fenAfter == r.write(next(before.value, Trim(inputs[k].san)).value)
  }

  ghost predicate Recorded(
    r: Rules, next: Player, start: string, inputs: seq<G.MoveInput>, moves: seq<G.VerifiedMove>) {
    |moves| == |inputs| && forall k :: 0 <= k < |moves| ==> Records(r, next, start, inputs, moves, k)
  }

  /** The first n plies can be recorded, and the next one does not resolve. */
  ghost predicate StopsBehind(
    r: Rules, next: Player, start: string, inputs: seq<G.MoveInput>, n: nat, first: seq<G.VerifiedMove>, e: Error)
    requires n < |inputs|
  {
    var before := ReadFen(r, if first == [] then start else first[|first| - 1].fenAfter);
    && Recorded(r, next, start, inputs[..n], first)
    && before.Some? && next(before.value, Trim(inputs[n].san)) == Err(e)
  }

  /** The records of a walk. */
  function WalkRecords(r: Rules, start: string, inputs: seq<G.MoveInput>, n: nat): (moves: seq<G.VerifiedMove>)
    requires n <= |inputs| && ReadFen(r, start).Some?
    requires n < |Walk(r, ReadFen(r, start).value, G.TrimmedSans(inputs))|
  {
    G.VerifiedMoves(inputs[..n], start, Fens(r, Walk(r, ReadFen(r, start).value, G.TrimmedSans(inputs))[1..n + 1]))
  }

  lemma WalkRecorded(r: Rules, start: string, inputs: seq<G.MoveInput>, n: nat)
    requires Lawful(r) && ReadFen(r, start).Some? && start != "" && n <= |inputs|
    requires n < |Walk(r, ReadFen(r, start).value, G.TrimmedSans(inputs))|
    ensures Recorded(r, NextOf(r), start, inputs[..n], WalkRecords(r, start, inputs, n))
  {
    var moves := WalkRecords(r, start, inputs, n);
    forall k | 0 <= k < n ensures Records(r, NextOf(r), start, inputs[..n], moves, k) {
      RecordOfWalk(r, start, inputs, n, k);
    }
  }

  lemma RecordOfWalk(r: Rules, start: string, inputs: seq<G.MoveInput>, n: nat, k: nat)
    requires Lawful(r) && ReadFen(r, start).Some? && start != "" && k < n <= |inputs|
    requires n < |Walk(r, ReadFen(r, start).value, G.TrimmedSans(inputs))|
    ensures |WalkRecords(r, start, inputs, n)| == n
    ensures Records(r, NextOf(r), start, inputs[..n], WalkRecords(r, start, inputs, n), k)
  {
    var p, sans := ReadFen(r, start).value, G.TrimmedSans(inputs);
    var w := Walk(r, p, sans);
    WalkIsLongestLine(NextOf(r), p, sans);
    assert Leads(NextOf(r), sans, w, k);
    R.WalkTurns(r, p, sans, k);
    R.ReadWritten(r, w[k]);
    assert r.read(start) == Some(p);
    assert w[1..n + 1][k] == w[k + 1] && (k > 0 ==> w[1..n + 1][k - 1] == w[k]);
  }

  /** A walk goes on where the next move resolves. */
  lemma WalkGoesOn(next: Player, p: Position, sans: seq<string>, k: nat)
    requires k < |sans| && k < |WalkBy(next, p, sans)| && next(WalkBy(next, p, sans)[k], sans[k]).Ok?
    ensures k + 1 < |WalkBy(next, p, sans)|
    ensures next(WalkBy(next, p, sans)[k], sans[k]) == Ok(WalkBy(next, p, sans)[k + 1])
  {
    var w := WalkBy(next, p, sans);
    WalkIsLongestLine(next, p, sans);
    assert |w| > k + 1;
    assert Leads(next, sans, w, k);
  }

  /** Where a record of a known position leads. */
  lemma RecordLeads(
    r: Rules, next: Player, start: string, inputs: seq<G.MoveInput>, moves: seq<G.VerifiedMove>, k: nat, q: Position)
    requires k < |inputs| && k < |moves| && Records(r, next, start, inputs, moves, k)
    requires ReadFen(r, if k == 0 then start else moves[k - 1].fenAfter) == Some(q)
    ensures next(q, G.TrimmedSans(inputs)[k]).Ok?
    ensures moves[k].fenAfter == r.write(next(q, G.TrimmedSans(inputs)[k]).value)
  {
  }

  lemma {:induction false} RecordsReach(
    r: Rules, next: Player, start: string, inputs: seq<G.MoveInput>, moves: seq<G.VerifiedMove>, k: nat)
    requires Lawful(r) && ReadFen(r, start).Some? && Recorded(r, next, start, inputs, moves) && k <= |inputs|
    ensures k < |WalkBy(next, ReadFen(r, start).value, G.TrimmedSans(inputs))|
    ensures k > 0 ==> moves[k - 1].fenAfter == r.write(WalkBy(next, ReadFen(r, start).value, G.TrimmedSans(inputs))[k])
    decreases k
  {
    if k == 0 {
    } else {
      var p, sans := ReadFen(r, start).value, G.TrimmedSans(inputs);
      var w := WalkBy(next, p, sans);
      RecordsReach(r, next, start, inputs, moves, k - 1);
      R.ReadWritten(r, w[k - 1]);
      RecordLeads(r, next, start, inputs, moves, k - 1, w[k - 1]);
      WalkGoesOn(next, p, sans, k - 1);
    }
  }

  /** Two records of the same input with the same FEN. */
  lemma RecordsEqual(
    r: Rules, next: Player, start: string, inputs: seq<G.MoveInput>,
    a: seq<G.VerifiedMove>, b: seq<G.VerifiedMove>, k: nat)
    requires k < |inputs| && k < |a| && k < |b|
    requires Records(r, next, start, inputs, a, k) && Records(r, next, start, inputs, b, k)
    requires a[k].fenAfter == b[k].fenAfter
    ensures a[k] == b[k]
  {
  }

  lemma SameRecord(
    r: Rules, next: Player, start: string, inputs: seq<G.MoveInput>,
    a: seq<G.VerifiedMove>, b: seq<G.VerifiedMove>, k: nat)
    requires Lawful(r) && ReadFen(r, start).Some? && k < |inputs|
    requires Recorded(r, next, start, inputs, a) && Recorded(r, next, start, inputs, b)
    ensures a[k] == b[k]
  {
    RecordsReach(r, next, start, inputs, a, k + 1);
    RecordsReach(r, next, start, inputs, b, k + 1);
    assert a[k].fenAfter == b[k].fenAfter;
    assert Records(r, next, start, inputs, a, k);
    assert Records(r, next, start, inputs, b, k);
    RecordsEqual(r, next, start, inputs, a, b, k);
  }

  lemma RecordedOnce(
    r: Rules, next: Player, start: string, inputs: seq<G.MoveInput>, a: seq<G.VerifiedMove>, b: seq<G.VerifiedMove>)
    requires Lawful(r) && ReadFen(r, start).Some?
    requires Recorded(r, next, start, inputs, a) && Recorded(r, next, start, inputs, b)
    ensures a == b
  {
    forall k | 0 <= k < |inputs| ensures a[k] == b[k] {
      SameRecord(r, next, start, inputs, a, b, k);
    }
  }

  /** Records follow the walk, so they are its records. */
  lemma RecordsWalk(r: Rules, start: string, inputs: seq<G.MoveInput>, moves: seq<G.VerifiedMove>)
    requires Lawful(r) && ReadFen(r, start).Some? && start != "" && Recorded(r, NextOf(r), start, inputs, moves)
    ensures |Walk(r, ReadFen(r, start).value, G.TrimmedSans(inputs))| == |inputs| + 1
    ensures moves == WalkRecords(r, start, inputs, |inputs|)
  {
    RecordsReach(r, NextOf(r), start, inputs, moves, |inputs|);
    WalkRecorded(r, start, inputs, |inputs|);
    assert inputs[..|inputs|] == inputs;
    RecordedOnce(r, NextOf(r), start, inputs, moves, WalkRecords(r, start, inputs, |inputs|));
  }

  /** The gate accepts if and only if the plies can be recorded like this, and then these are its
      records; otherwise it records nothing and names the first ply that does not resolve behind the
      ones before it. */
  lemma GateRecords(
    r: Rules, h: G.DraftHeader, start: string, inputs: seq<G.MoveInput>, v: G.Verified, err: Option<Error>)
    requires Lawful(r) && ReadFen(r, start).Some? && start != "" && G.IsVerified(r, h, start, inputs, v, err)
    ensures err.None? <==> exists moves :: Recorded(r, NextOf(r), start, inputs, moves)
    ensures err.None? ==> Recorded(r, NextOf(r), start, inputs, v.moves) && v.failedAt == -1
    ensures forall moves :: Recorded(r, NextOf(r), start, inputs, moves) ==> v.moves == moves
    ensures err.Some? ==>
      && v.moves == [] && v.pgn == "" && 0 <= v.failedAt < |inputs|
      && exists first :: StopsBehind(r, NextOf(r), start, inputs, v.failedAt, first, err.value)
  {
    var p, sans := ReadFen(r, start).value, G.TrimmedSans(inputs);
    var w := Walk(r, p, sans);
    forall moves | Recorded(r, NextOf(r), start, inputs, moves) ensures err.None? && v.moves == moves {
      RecordsWalk(r, start, inputs, moves);
      AcceptedRecords(r, h, start, inputs, v, err);
    }
    if |w| == |inputs| + 1 {
      AcceptedRecords(r, h, start, inputs, v, err);
      WalkRecorded(r, start, inputs, |inputs|);
      assert inputs[..|inputs|] == inputs;
    } else {
      RefusedBehind(r, h, start, inputs, v, err);
    }
  }

  lemma WholeWalkRecords(r: Rules, start: string, inputs: seq<G.MoveInput>)
    requires ReadFen(r, start).Some?
    requires |Walk(r, ReadFen(r, start).value, G.TrimmedSans(inputs))| == |inputs| + 1
    ensures WalkRecords(r, start, inputs, |inputs|)
      == G.VerifiedMoves(inputs, start, Fens(r, Walk(r, ReadFen(r, start).value, G.TrimmedSans(inputs))[1..]))
  {
    var w := Walk(r, ReadFen(r, start).value, G.TrimmedSans(inputs));
    assert inputs[..|inputs|] == inputs;
    assert w[1..|inputs| + 1] == w[1..];
  }

  lemma AcceptedRecords(
    r: Rules, h: G.DraftHeader, start: string, inputs: seq<G.MoveInput>, v: G.Verified, err: Option<Error>)
    requires ReadFen(r, start).Some? && G.IsVerified(r, h, start, inputs, v, err)
    requires |Walk(r, ReadFen(r, start).value, G.TrimmedSans(inputs))| == |inputs| + 1
    ensures err.None? && v.failedAt == -1 && v.moves == WalkRecords(r, start, inputs, |inputs|)
  {
    WholeWalkRecords(r, start, inputs);
  }

  lemma RecordsStop(
    r: Rules, next: Player, start: string, inputs: seq<G.MoveInput>, first: seq<G.VerifiedMove>, q: Position, e: Error)
    requires Lawful(r) && |first| < |inputs| && Recorded(r, next, start, inputs[..|first|], first)
    requires if first == [] then ReadFen(r, start) == Some(q) else first[|first| - 1].fenAfter == r.write(q)
    requires next(q, Trim(inputs[|first|].san)) == Err(e)
    ensures StopsBehind(r, next, start, inputs, |first|, first, e)
  {
    R.ReadWritten(r, q);
  }

  lemma RefusedBehind(
    r: Rules, h: G.DraftHeader, start: string, inputs: seq<G.MoveInput>, v: G.Verified, err: Option<Error>)
    requires Lawful(r) && ReadFen(r, start).Some? && start != "" && G.IsVerified(r, h, start, inputs, v, err)
    requires |Walk(r, ReadFen(r, start).value, G.TrimmedSans(inputs))| <= |inputs|
    ensures err.Some? && v.moves == [] && v.pgn == "" && 0 <= v.failedAt < |inputs|
    ensures exists first :: StopsBehind(r, NextOf(r), start, inputs, v.failedAt, first, err.value)
  {
    var w := Walk(r, ReadFen(r, start).value, G.TrimmedSans(inputs));
    var n := |w| - 1;
    WalkRecorded(r, start, inputs, n);
    assert n > 0 ==> w[1..n + 1][n - 1] == w[n];
    RecordsStop(r, NextOf(r), start, inputs, WalkRecords(r, start, inputs, n), w[n], err.value);
  }
}
