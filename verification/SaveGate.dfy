/** The authoritative replay on save (internal/httpapi/games.go). */
module SaveGate {
  import opened Text
  import opened ChessRules
  import opened SanMoves
  import R = Reconciliation
  import M = Movetext
  import PgnTags
  import PgnWriter

  datatype MoveInput = MoveInput(ply: int, san: string, clock: Option<int>)

  /** A human-verified ply: legal, with full confidence. */
  datatype VerifiedMove = VerifiedMove(ply: nat, side: string, san: string, fenAfter: string, clock: Option<int>)

  datatype Verified = Verified(moves: seq<VerifiedMove>, pgn: string, failedAt: int)

  /** The header a client may send. */
  datatype DraftHeader = DraftHeader(
    white: string, black: string, event: string, site: string, date: string, round: string,
    board: string, result: string)

  function ToChessHeader(h: DraftHeader): PgnTags.Header {
    PgnTags.Header(h.event, h.site, h.date, h.round, h.white, h.black, h.board,
                   PgnTags.NormalizeResult(if h.result == "" then "*" else h.result), map[])
  }

  function TrimmedSans(inputs: seq<MoveInput>): (sans: seq<string>)
    ensures |sans| == |inputs|
    ensures forall i :: 0 <= i < |inputs| ==> sans[i] == Trim(inputs[i].san)
  {
    seq(|inputs|, i requires 0 <= i < |inputs| => Trim(inputs[i].san))
  }

  /** The k-th move, between two positions given by their FENs. */
  function VerifiedAt(inputs: seq<MoveInput>, k: nat, before: string, after: string): VerifiedMove
    requires k < |inputs|
  {
    VerifiedMove(k + 1, R.SideToMove(before), Trim(inputs[k].san), after, inputs[k].clock)
  }

  function PgnMoveAt(inputs: seq<MoveInput>, k: nat, before: string, after: string): M.Move
    requires k < |inputs|
  {
    M.Move(Trim(inputs[k].san), before, after, inputs[k].clock)
  }

  /** The FEN before the k-th move: the start as given, then the recorded ones. */
  function Before(start: string, fens: seq<string>, k: nat): string
    requires k <= |fens|
  {
    if k == 0 then start else fens[k - 1]
  }

  /** The gate accepts exactly when the whole list is playable; it then records the positions of
      the walk, and otherwise the index of the first move that does not resolve. */
  ghost predicate IsVerified(
    r: Rules, h: DraftHeader, start: string, inputs: seq<MoveInput>, v: Verified, err: Option<Error>)
  {
    match ReadFen(r, start)
    case None => err == Some(BadFen) && v == Verified([], "", 0)
    case Some(p) =>
      var w := Walk(r, p, TrimmedSans(inputs));
      if |w| <= |inputs| then
        var next := Next(r, w[|w| - 1], Trim(inputs[|w| - 1].san));
        next.Err? && err == Some(next.error) && v == Verified([], "", |w| - 1)
      else
        var fens := Fens(r, w[1..]);
        && err == None && v.failedAt == -1 && v.moves == VerifiedMoves(inputs, start, fens)
        && v.pgn == PgnWriter.GameText(SavedGame(h, start, inputs, fens))
  }

  /** The game that is exported, with the client's own spelling of the moves. */
  function SavedGame(h: DraftHeader, start: string, inputs: seq<MoveInput>, fens: seq<string>): PgnWriter.Game
    requires |fens| == |inputs|
  {
    PgnWriter.Game(ToChessHeader(h), PgnMoves(inputs, start, fens), start)
  }

  function VerifiedMoves(inputs: seq<MoveInput>, start: string, fens: seq<string>): (moves: seq<VerifiedMove>)
    requires |fens| == |inputs|
    ensures |moves| == |inputs|
    ensures forall k :: 0 <= k < |inputs| ==> moves[k] == VerifiedAt(inputs, k, Before(start, fens, k), fens[k])
  {
    seq(|inputs|, k requires 0 <= k < |inputs| => VerifiedAt(inputs, k, Before(start, fens, k), fens[k]))
  }

  function PgnMoves(inputs: seq<MoveInput>, start: string, fens: seq<string>): (moves: seq<M.Move>)
    requires |fens| == |inputs|
    ensures |moves| == |inputs|
    ensures forall k :: 0 <= k < |inputs| ==> moves[k] == PgnMoveAt(inputs, k, Before(start, fens, k), fens[k])
  {
    seq(|inputs|, k requires 0 <= k < |inputs| => PgnMoveAt(inputs, k, Before(start, fens, k), fens[k]))
  }

  lemma Extend<T>(s: seq<T>, i: nat, x: T)
    requires i < |s| && x == s[i]
    ensures s[..i] + [x] == s[..i + 1]
  {
  }

  method BuildMoves(inputs: seq<MoveInput>, sans: seq<string>, start: string, positions: seq<string>)
    returns (moves: seq<VerifiedMove>, ckMoves: seq<M.Move>)
    requires sans == TrimmedSans(inputs) && |positions| == |inputs|
    ensures moves == VerifiedMoves(inputs, start, positions)
    ensures ckMoves == PgnMoves(inputs, start, positions)
  {
    moves, ckMoves := [], [];
    var prev := start;
    ghost var all, ckAll := VerifiedMoves(inputs, start, positions), PgnMoves(inputs, start, positions);
    for i := 0 to |inputs|
      invariant prev == Before(start, positions, i)
      invariant moves == all[..i] && ckMoves == ckAll[..i]
    {
      var m, ck := BuildMove(inputs, i, sans[i], prev, positions[i]);
      Extend(all, i, m);
      Extend(ckAll, i, ck);
      moves, ckMoves := moves + [m], ckMoves + [ck];
      prev := positions[i];
    }
    assert all[..|inputs|] == all && ckAll[..|inputs|] == ckAll;
  }

  method BuildMove(inputs: seq<MoveInput>, i: nat, san: string, prev: string, after: string)
    returns (m: VerifiedMove, ck: M.Move)
    requires i < |inputs| && san == Trim(inputs[i].san)
    ensures m == VerifiedAt(inputs, i, prev, after) && ck == PgnMoveAt(inputs, i, prev, after)
  {
    m := VerifiedMove(i + 1, R.SideToMove(prev), san, after, inputs[i].clock);
    ck := M.Move(san, prev, after, inputs[i].clock);
  }

  method BuildVerifiedGame(r: Rules, h: DraftHeader, startFen: string, inputs: seq<MoveInput>)
    returns (v: Verified, err: Option<Error>)
    ensures IsVerified(r, h, StartOf(startFen), inputs, v, err)
  {
    var start := if startFen == "" then STARTING_FEN else startFen;
    var sans := TrimmedSans(inputs);
    var positions, e, failedAt := ApplyMoves(r, start, sans);
    if e.Some? { return Verified([], "", failedAt), e; }
    var moves, ckMoves := BuildMoves(inputs, sans, start, positions);
    var pgn := PgnWriter.WritePgn(PgnWriter.Game(ToChessHeader(h), ckMoves, start));
    return Verified(moves, pgn, -1), None;
  }
}
