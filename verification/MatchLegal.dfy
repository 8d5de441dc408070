/** Ranking the legal moves by their likeness to a misread move
    (internal/recognition/postprocess.go). */
module MatchLegal {
  import opened Text
  import opened Sorting
  import opened EditDistance

  datatype Scored = Scored(san: string, dist: nat)

  /** Nearer first; equally near moves in alphabetical order. */
  predicate ScoreLe(x: Scored, y: Scored) {
    x.dist < y.dist || (x.dist == y.dist && LexLe(x.san, y.san))
  }

  lemma ScoreOrder()
    ensures TotalOrder(ScoreLe)
  {
    LexOrder();
    forall x, y | ScoreLe(x, y) && ScoreLe(y, x) ensures x == y {
      assert LexLe(x.san, y.san) && LexLe(y.san, x.san);
    }
    forall x, y ensures ScoreLe(x, y) || ScoreLe(y, x) {
      assert LexLe(x.san, y.san) || LexLe(y.san, x.san);
    }
    forall x, y, z | ScoreLe(x, y) && ScoreLe(y, z) ensures ScoreLe(x, z) {
      if x.dist == y.dist == z.dist { assert LexLe(x.san, y.san) && LexLe(y.san, z.san); }
    }
  }

  function Score(cand: string, legal: seq<string>): (scored: seq<Scored>)
    ensures |scored| == |legal|
    ensures forall i :: 0 <= i < |legal| ==> scored[i] == Scored(legal[i], Dist(cand, legal[i]))
  {
    Map((l: string) => Scored(l, Dist(cand, l)), legal)
  }

  function Sans(scored: seq<Scored>): (sans: seq<string>)
    ensures |sans| == |scored|
    ensures forall i :: 0 <= i < |scored| ==> sans[i] == scored[i].san
  {
    Map((s: Scored) => s.san, scored)
  }

  /** best, ranked and confident. */
  datatype Match = Match(best: string, ranked: seq<string>, confident: bool)

  const MAX_SUGGESTIONS: nat := 5

  function MatchOf(cand: string, legal: seq<string>): Match {
    var all := Sort(Score(cand, legal), ScoreLe);
    if legal == [] || cand == "" || all == [] then Match("", [], false)
    else
      Match(all[0].san, Sans(all[..if |all| < MAX_SUGGESTIONS then |all| else MAX_SUGGESTIONS]),
            all[0].dist <= 1 && (|all| == 1 || all[1].dist > all[0].dist))
  }

  method FindMatch(cand: string, legal: seq<string>) returns (best: string, ranked: seq<string>, confident: bool)
    ensures Match(best, ranked, confident) == MatchOf(cand, legal)
  {
    if |legal| == 0 || cand == "" { return "", [], false; }
    var scoredAll: seq<Scored> := [];
    for i := 0 to |legal|
      invariant scoredAll == Score(cand, legal)[..i]
    {
      var d := EditDistanceGo(cand, legal[i]);
      scoredAll := scoredAll + [Scored(legal[i], d)];
    }
    assert scoredAll == Score(cand, legal);
    scoredAll := Sort(scoredAll, ScoreLe);
    ScoreOrder();
    SortCorrect(Score(cand, legal), ScoreLe);
    ranked := [];
    for i := 0 to |scoredAll|
      invariant i <= MAX_SUGGESTIONS
      invariant ranked == Sans(scoredAll[..i])
    {
      if i >= MAX_SUGGESTIONS { break; }
      ranked := ranked + [scoredAll[i].san];
    }
    best := scoredAll[0].san;
    var unique := |scoredAll| == 1 || scoredAll[1].dist > scoredAll[0].dist;
    confident := scoredAll[0].dist <= 1 && unique;
    if |scoredAll| <= MAX_SUGGESTIONS { assert scoredAll[..|scoredAll|] == scoredAll; }
  }

  // ---------- what the ranking means ----------

  /** best is the alphabetically least of the nearest moves. */
  ghost predicate IsBest(cand: string, legal: seq<string>, best: string) {
    && best in legal
    && forall l :: l in legal ==>
         Dist(cand, best) < Dist(cand, l) || (Dist(cand, best) == Dist(cand, l) && LexLe(best, l))
  }

  /** w is listed once, within one edit, and nearer than every other move. */
  ghost predicate IsWinner(cand: string, legal: seq<string>, w: string) {
    && multiset(legal)[w] == 1 && Dist(cand, w) <= 1
    && forall l :: l in legal && l != w ==> Dist(cand, l) > Dist(cand, w)
  }

  /** ranked starts the list of all moves in order of likeness. */
  ghost predicate IsRanking(cand: string, legal: seq<string>, ranked: seq<string>) {
    exists rest ::
      && multiset(ranked + rest) == multiset(legal)
      && Sorted(Score(cand, ranked + rest), ScoreLe)
      && |ranked| == if |legal| < MAX_SUGGESTIONS then |legal| else MAX_SUGGESTIONS
  }

  /** The sorted scores are the scores of the sorted moves. */
  lemma SortedScores(cand: string, legal: seq<string>)
    ensures var all := Sort(Score(cand, legal), ScoreLe);
      && |all| == |legal| && Sorted(all, ScoreLe)
      && multiset(Sans(all)) == multiset(legal)
      && Score(cand, Sans(all)) == all
  {
    ScoreOrder();
    var scored := Score(cand, legal);
    var all := Sort(scored, ScoreLe);
    SortCorrect(scored, ScoreLe);
    MapRearranged((s: Scored) => s.san, all, scored);
    assert Sans(scored) == legal;
    forall i | 0 <= i < |all| ensures all[i].dist == Dist(cand, all[i].san) {
      assert all[i] in multiset(scored);
      assert all[i] in scored;
    }
  }

  lemma MatchMeaning(cand: string, legal: seq<string>)
    requires legal != [] && cand != ""
    ensures IsBest(cand, legal, MatchOf(cand, legal).best)
    ensures IsRanking(cand, legal, MatchOf(cand, legal).ranked)
    ensures MatchOf(cand, legal).confident <==> exists w :: IsWinner(cand, legal, w)
  {
    var all := Sort(Score(cand, legal), ScoreLe);
    SortedScores(cand, legal);
    var n := if |all| < MAX_SUGGESTIONS then |all| else MAX_SUGGESTIONS;
    var ranked, rest := Sans(all[..n]), Sans(all[n..]);
    assert ranked + rest == Sans(all);
    assert IsRanking(cand, legal, ranked);
    BestIsFirst(cand, legal);
    WinnerIsFirst(cand, legal);
  }

  lemma BestIsFirst(cand: string, legal: seq<string>)
    requires legal != [] && cand != ""
    ensures IsBest(cand, legal, MatchOf(cand, legal).best)
  {
    var all := Sort(Score(cand, legal), ScoreLe);
    SortedScores(cand, legal);
    var best := all[0].san;
    assert best == Sans(all)[0] && best in multiset(Sans(all));
    forall l | l in legal
      ensures Dist(cand, best) < Dist(cand, l) || (Dist(cand, best) == Dist(cand, l) && LexLe(best, l))
    {
      assert l in multiset(Sans(all));
      var j :| 0 <= j < |all| && Sans(all)[j] == l;
      ScoreOrder();
      assert ScoreLe(all[0], all[j]);
    }
  }

  lemma WinnerIsFirst(cand: string, legal: seq<string>)
    requires legal != [] && cand != ""
    ensures MatchOf(cand, legal).confident <==> exists w :: IsWinner(cand, legal, w)
  {
    var all := Sort(Score(cand, legal), ScoreLe);
    var sans := Sans(all);
    SortedScores(cand, legal);
    assert forall l :: l in legal <==> l in multiset(sans);
    forall w ensures IsWinner(cand, legal, w) <==> IsWinner(cand, sans, w) {
      assert multiset(legal)[w] == multiset(sans)[w];
    }
    SortedWinner(cand, all);
  }

  /** In a sorted list only the first entry can win, and it wins when the second is farther. */
  lemma SortedWinner(cand: string, all: seq<Scored>)
    requires all != [] && Sorted(all, ScoreLe) && Score(cand, Sans(all)) == all
    ensures (all[0].dist <= 1 && (|all| == 1 || all[1].dist > all[0].dist))
      <==> exists w :: IsWinner(cand, Sans(all), w)
  {
    var sans := Sans(all);
    var first, rest := sans[0], sans[1..];
    assert sans == [first] + rest;
    forall i | 0 <= i < |all| ensures all[i].dist == Dist(cand, sans[i]) && all[0].dist <= all[i].dist {
      ScoreOrder();
      assert Score(cand, sans)[i] == all[i];
      if i > 0 { assert ScoreLe(all[0], all[i]); }
    }
    if all[0].dist <= 1 && (|all| == 1 || all[1].dist > all[0].dist) {
      forall l | l in rest ensures Dist(cand, l) > Dist(cand, first) {
        var i :| 0 <= i < |rest| && rest[i] == l;
        assert sans[i + 1] == l;
        if i > 0 { assert ScoreLe(all[1], all[i + 1]); }
      }
      assert first !in rest;
      assert multiset(sans)[first] == 1 + multiset(rest)[first];
      assert IsWinner(cand, sans, first);
    }
    if w :| IsWinner(cand, sans, w) {
      WinnerLeads(cand, all, w);
    }
  }

  lemma WinnerLeads(cand: string, all: seq<Scored>, w: string)
    requires all != [] && Sorted(all, ScoreLe) && Score(cand, Sans(all)) == all
    requires IsWinner(cand, Sans(all), w)
    ensures all[0].dist <= 1 && (|all| == 1 || all[1].dist > all[0].dist)
  {
    var sans := Sans(all);
    assert Score(cand, sans)[0] == all[0];
    assert w in multiset(sans);
    var i :| 0 <= i < |sans| && sans[i] == w;
    assert Score(cand, sans)[i] == all[i];
    assert i == 0 || ScoreLe(all[0], all[i]);
    assert sans[0] in sans;
    assert sans[0] == w;
    if |all| > 1 {
      assert sans == [sans[0]] + [sans[1]] + sans[2..];
      assert multiset(sans)[w] == 1 + multiset([sans[1]])[w] + multiset(sans[2..])[w];
      assert sans[1] != w && sans[1] in sans;
      assert Score(cand, sans)[1] == all[1];
    }
  }

  /** The match does not depend on the order in which the library lists the legal moves. */
  lemma MatchIgnoresOrder(cand: string, a: seq<string>, b: seq<string>)
    requires multiset(a) == multiset(b)
    ensures MatchOf(cand, a) == MatchOf(cand, b)
  {
    ScoreOrder();
    MapRearranged((l: string) => Scored(l, Dist(cand, l)), a, b);
    assert |multiset(a)| == |multiset(b)|;
    SortCorrect(Score(cand, a), ScoreLe);
    SortCorrect(Score(cand, b), ScoreLe);
    SortedUnique(Sort(Score(cand, a), ScoreLe), Sort(Score(cand, b), ScoreLe), ScoreLe);
  }
}
