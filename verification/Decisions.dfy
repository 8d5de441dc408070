/** What a draft makes of every token, told without the functions that compute it
    (internal/recognition/postprocess.go): play it, pick a disambiguation, correct it, or stop. */
module Decisions {
  import opened Text
  import opened Sorting
  import opened ChessRules
  import opened SanMoves
  import opened MatchLegal
  import opened Reconciliation
  import opened Ambiguity
  import opened EditDistance

  // ---------- piece reads ----------

  /** A piece letter, anything, a square, check marks. */
  ghost predicate IsPieceRead(san: string, letter: char, square: string) {
    && IsPieceLetter(letter) && |square| == 2 && 'a' <= square[0] <= 'h' && '1' <= square[1] <= '8'
    && exists mid, marks :: san == [letter] + mid + square + marks && OnlyMarks(marks)
  }

  /** The piece and the square of a read are what stands at its ends. */
  lemma PieceDestExactly(san: string, letter: char, square: string)
    ensures PieceDest(san) == Some((letter, square)) <==> IsPieceRead(san, letter, square)
  {
    var s := TrimMarks(san);
    if PieceDest(san) == Some((letter, square)) {
      var mid, marks := s[1..|s| - 2], san[|s|..];
      assert s == [letter] + mid + square && san == s + marks;
      assert san == [letter] + mid + square + marks && OnlyMarks(marks);
    }
    if IsPieceRead(san, letter, square) {
      var mid, marks :| san == [letter] + mid + square + marks && OnlyMarks(marks);
      var core := [letter] + mid + square;
      assert core[|core| - 1] == square[1];
      MarksTrimmed(core, marks);
      assert core[|core| - 2..] == square && core[0] == letter;
    }
  }

  // ---------- decisions ----------

  /** Played as it was read. */
  predicate PlaysAsRead(m: DraftMove, san: string, to: string, conf: real) {
    && m.isLegal && !m.corrected && m.san == san && m.fenAfter == to && m.suggestions == []
    && m.confidence == if 0.0 < conf < 0.5 then conf else 0.9
  }

  /** Settled with the alphabetically least move of the same piece to the same square. */
  ghost predicate PicksLeast(r: Rules, fen: string, m: DraftMove, san: string) {
    && m.isLegal && m.corrected && Validate(r, fen, m.san) == Ok(m.fenAfter) && m.confidence == 0.3
    && (forall l :: l in m.suggestions <==> l in LegalSans(r, fen) && SameTarget(san, l))
    && Sorted(m.suggestions, LexLe) && |m.suggestions| >= 2 && m.san == m.suggestions[0]
  }

  /** Settled with the one legal move within one edit that is nearer than every other. */
  ghost predicate TakesWinner(r: Rules, fen: string, m: DraftMove, san: string) {
    && m.isLegal && m.corrected && Validate(r, fen, m.san) == Ok(m.fenAfter) && m.confidence == 0.4
    && IsWinner(san, LegalSans(r, fen), m.san) && IsRanking(san, LegalSans(r, fen), m.suggestions)
  }

  /** Left as it was read, with the nearest legal moves for the reviewer. */
  ghost predicate Stops(r: Rules, fen: string, m: DraftMove, san: string) {
    && !m.isLegal && !m.corrected && m.san == san && m.fenAfter == "" && m.confidence == 0.0
    && (if san == "" then m.suggestions == [] else IsRanking(san, LegalSans(r, fen), m.suggestions))
  }

  /** The whole decision table for a token in a position. */
  ghost predicate Decided(r: Rules, fen: string, san: string, conf: real, m: DraftMove) {
    if san == "" then Stops(r, fen, m, san)
    else match Validate(r, fen, san)
      case Ok(to) => PlaysAsRead(m, san, to, conf)
      case Err(e) =>
        if e == AmbiguousMove && exists letter, square :: IsPieceRead(san, letter, square) then
          PicksLeast(r, fen, m, san)
        else if exists w :: IsWinner(san, LegalSans(r, fen), w) then TakesWinner(r, fen, m, san)
        else Stops(r, fen, m, san)
  }

  lemma PieceReadIff(san: string)
    ensures PieceDest(san).Some? <==> exists letter, square :: IsPieceRead(san, letter, square)
  {
    if PieceDest(san).Some? { PieceDestExactly(san, PieceDest(san).value.0, PieceDest(san).value.1); }
    if letter, square :| IsPieceRead(san, letter, square) { PieceDestExactly(san, letter, square); }
  }

  /** An unambiguous misread is settled if and only if one legal move wins, and then with that move. */
  lemma NearestExactly(r: Rules, fen: string, san: string)
    requires Lawful(r) && san != ""
    ensures var legal := LegalSans(r, fen);
      && IsRanking(san, legal, MatchOf(san, legal).ranked)
      && (PickNearest(r, fen, san).Some? <==> exists w :: IsWinner(san, legal, w))
      && (PickNearest(r, fen, san).Some? ==>
            IsWinner(san, legal, PickNearest(r, fen, san).value.san)
            && PickNearest(r, fen, san).value.suggestions == MatchOf(san, legal).ranked)
  {
    var legal := LegalSans(r, fen);
    if legal == [] {
      NothingRanked(san);
    } else {
      MatchMeaning(san, legal);
      if w :| IsWinner(san, legal, w) {
        BestIsWinner(san, legal, w);
        WinnerPlays(r, fen, w);
      }
    }
  }

  lemma NothingRanked(san: string)
    ensures IsRanking(san, [], []) && forall w :: !IsWinner(san, [], w)
  {
    var none: seq<string> := [];
    assert none + none == none && Score(san, none) == [];
    assert Sorted(Score(san, none + none), ScoreLe);
  }

  lemma BestIsWinner(san: string, legal: seq<string>, w: string)
    requires IsWinner(san, legal, w) && legal != [] && san != ""
    ensures w in legal && MatchOf(san, legal).best == w
  {
    MatchMeaning(san, legal);
    assert w in multiset(legal);
  }

  lemma WinnerPlays(r: Rules, fen: string, w: string)
    requires Lawful(r) && w in LegalSans(r, fen)
    ensures Validate(r, fen, w).Ok?
  {
    ChoicesValidate(r, ReadFen(r, fen).value, fen, w);
  }

  /** An ambiguous piece read. */
  lemma LeastPicked(r: Rules, fen: string, san: string, conf: real)
    requires Lawful(r) && Validate(r, fen, san) == Err(AmbiguousMove) && PieceDest(san).Some?
    ensures PickDisambiguation(r, fen, san).Some?
    ensures Settle(r, fen, san, conf) == PickDisambiguation(r, fen, san)
    ensures Sorted(PickDisambiguation(r, fen, san).value.suggestions, LexLe)
  {
    AmbiguousNeverBlocks(r, fen, san, conf);
    LexOrder();
    SortCorrect(Disambiguations(san, LegalSans(r, fen)), LexLe);
    if PickDisambiguation(r, fen, san).None? { SettledByPick(r, fen, san, conf); }
  }

  /** What an ambiguous read is settled with has the confidence of a pick. */
  lemma SettledByPick(r: Rules, fen: string, san: string, conf: real)
    requires Validate(r, fen, san).Err? && PickDisambiguation(r, fen, san).None?
    ensures Settle(r, fen, san, conf).Some? ==> Settle(r, fen, san, conf).value.confidence == CONF_AUTO_CORRECTED
  {
  }

  /** Any other misread is left to the nearest moves. */
  lemma NotPicked(r: Rules, fen: string, san: string)
    requires Validate(r, fen, san) != Err(AmbiguousMove) || PieceDest(san).None?
    ensures PickDisambiguation(r, fen, san).None?
  {
    if PieceDest(san).None? {
      assert Disambiguations(san, LegalSans(r, fen)) == [];
      assert Sort<string>([], LexLe) == [];
    }
  }

  lemma EntryDecided(r: Rules, cur: string, i: nat, san: string, t: MoveToken)
    requires Lawful(r)
    ensures Decided(r, cur, san, t.confidence, DraftOf(r, State(cur, false), i, san, t))
  {
    var m := DraftOf(r, State(cur, false), i, san, t);
    if san == "" {
    } else if Validate(r, cur, san).Err? {
      PieceReadIff(san);
      NearestExactly(r, cur, san);
      if Validate(r, cur, san) == Err(AmbiguousMove) && PieceDest(san).Some? {
        AmbiguousNeverBlocks(r, cur, san, t.confidence);
        LeastPicked(r, cur, san, t.confidence);
        SettledIsLegal(r, cur, san, t.confidence);
      } else {
        NotPicked(r, cur, san);
        if m.isLegal { SettledIsLegal(r, cur, san, t.confidence); }
      }
    }
  }

  /** Every entry up to the first stop is what the decision table says of its token, in the position
      that the entries before it reached. */
  lemma {:induction false} DraftDecides(
    r: Rules, german: string -> string, cur: string, i: nat, tokens: seq<MoveToken>, k: nat)
    requires Lawful(r) && k < |tokens| && k <= LegalCount(Draft(r, german, State(cur, false), i, tokens))
    ensures var out := Draft(r, german, State(cur, false), i, tokens);
      Decided(r, FenBefore(cur, out, k), german(tokens[k].text), tokens[k].confidence, out[k])
    decreases k
  {
    var out := Draft(r, german, State(cur, false), i, tokens);
    DraftCons(r, german, State(cur, false), i, tokens);
    if k == 0 {
      EntryDecided(r, cur, i, german(tokens[0].text), tokens[0]);
    } else {
      var rest := Draft(r, german, State(out[0].fenAfter, false), i + 1, tokens[1..]);
      assert out[1..] == rest;
      DraftDecides(r, german, out[0].fenAfter, i + 1, tokens[1..], k - 1);
      assert FenBefore(out[0].fenAfter, rest, k - 1) == FenBefore(cur, out, k);
    }
  }
}
