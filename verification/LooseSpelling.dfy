/** Spellings with too much or too little origin (chesskit/san.go): what they are resolved by. */
module LooseSpelling {
  import opened Text
  import opened ChessRules
  import opened SanMoves

  /** A piece letter or none, any text, a square, a promotion or none. */
  ghost predicate IsLoose(letter: string, between: string, dest: string, promo: string) {
    && (letter == "" || (|letter| == 1 && 'A' <= letter[0] <= 'Z' && letter[0] != 'O'))
    && Lacks(between, '=')
    && (letter == "" && between != "" ==> !IsSpace(between[0]) && !('A' <= between[0] <= 'Z'))
    && |dest| == 2 && IsFile(dest[0]) && IsRank(dest[1])
    && (promo == "" || (|promo| == 2 && promo[0] == '=' && !IsSpace(promo[1]) && promo[1] !in "+#"))
  }

  /** The move has this piece, this square, this promotion, and is a capture when the text says so. */
  predicate Matches(m: San, letter: string, capture: bool, dest: string, promo: string) {
    match m
    case Castle(_) => false
    case Piece(l, _, x, file, rank) => letter == [l] && x == capture && dest == [file, rank] && promo == ""
    case Pawn(from, file, rank, pr) =>
      && letter == "" && (from != "" <==> capture) && dest == [file, rank]
      && promo == if pr.Some? then ['=', pr.value] else ""
  }

  function CaptureText(between: string): string {
    if Lacks(between, 'x') then "" else "x"
  }

  lemma LooseEnds(letter: string, between: string, dest: string, promo: string)
    requires IsLoose(letter, between, dest, promo)
    ensures var t := letter + between + dest + promo;
      && Solid(t) && t[|t| - 1] !in "+#" && !IsCastlingText(t, true) && !IsCastlingText(t, false)
  {
    var t := letter + between + dest + promo;
    assert t[|t| - 1] == if promo == "" then dest[1] else promo[1];
    assert t[0] == if letter != "" then letter[0] else if between != "" then between[0] else dest[0];
    if promo != "" { assert t[|t| - 2] == '='; }
  }

  lemma LooseNormal(letter: string, between: string, dest: string, promo: string, marks: string)
    requires IsLoose(letter, between, dest, promo) && OnlyMarks(marks)
    ensures var t := letter + between + dest + promo;
      NormalizeSan(t + marks) == t + marks && StripCheck(t + marks) == t
  {
    var t := letter + between + dest + promo;
    LooseEnds(letter, between, dest, promo);
    var s := t + marks;
    assert Solid(s) by { if marks != "" { assert s[|s| - 1] == marks[|marks| - 1]; } else { assert s == t; } }
    TrimSolid(s);
    MarksTrimmed(t, marks);
  }

  lemma LooseBody(letter: string, between: string, dest: string)
    requires IsLoose(letter, between, dest, "")
    ensures var body := letter + between + dest;
      && Lacks(body, '=') && (Lacks(body, 'x') <==> Lacks(between, 'x'))
      && DestOf(Without(body[|letter|..], 'x')) == dest
  {
    var body := letter + between + dest;
    assert body[|letter|..] == between + dest;
    CaptureInside(letter, between, dest);
    WithoutAppend(between, dest, 'x');
    WithoutAbsent(dest, 'x');
    var rest := Without(between, 'x');
    assert (rest + dest)[|rest|..] == dest;
  }

  lemma CaptureInside(letter: string, between: string, dest: string)
    requires IsLoose(letter, between, dest, "")
    ensures Lacks(letter + between + dest, '=')
    ensures Lacks(letter + between + dest, 'x') <==> Lacks(between, 'x')
  {
    var body := letter + between + dest;
    forall i | 0 <= i < |between| ensures body[|letter| + i] == between[i] {}
  }

  lemma LooseSignature(letter: string, between: string, dest: string, promo: string)
    requires IsLoose(letter, between, dest, promo)
    ensures BareSignature(letter + between + dest + promo) == letter + CaptureText(between) + dest + promo
  {
    var body := letter + between + dest;
    var t := body + promo;
    LooseBody(letter, between, dest);
    CutPromotion(body, promo);
    PieceLetter(letter, between, dest, promo);
  }

  lemma PieceLetter(letter: string, between: string, dest: string, promo: string)
    requires IsLoose(letter, between, dest, promo)
    ensures PieceOf(letter + between + dest + promo) == letter
  {
    var t := letter + between + dest + promo;
    if letter != "" {
      assert t[..1] == letter;
    } else {
      assert t[0] == if between != "" then between[0] else dest[0];
    }
  }

  /** Signatures agree exactly for the moves that match. */
  lemma MatchesSigned(m: San, letter: string, between: string, dest: string, promo: string)
    requires WellFormed(m) && IsLoose(letter, between, dest, promo)
    ensures MoveSignature(m) == letter + CaptureText(between) + dest + promo
      <==> Matches(m, letter, !Lacks(between, 'x'), dest, promo)
  {
    var sig, cap := MoveSignature(m), CaptureText(between);
    var text := letter + cap + dest + promo;
    match m
    case Castle(long) => CastleUnlike(long, letter, cap, dest, promo);
    case Piece(l, from, x, file, rank) => PieceLike(m, letter, cap, dest, promo);
    case Pawn(from, file, rank, pr) => PawnLike(m, letter, cap, dest, promo);
  }

  /** Texts of known parts are equal exactly when their parts are. */
  lemma PartsEqual(l1: string, c1: string, d1: string, p1: string, l2: string, c2: string, d2: string, p2: string)
    requires |d1| == |d2| == 2 && IsFile(d1[0]) && IsFile(d2[0]) && IsRank(d1[1]) && IsRank(d2[1])
    requires c1 in ["", "x"] && c2 in ["", "x"]
    requires l1 == "" || (|l1| == 1 && 'A' <= l1[0] <= 'Z')
    requires l2 == "" || (|l2| == 1 && 'A' <= l2[0] <= 'Z')
    requires p1 == "" || (|p1| == 2 && p1[0] == '=')
    requires p2 == "" || (|p2| == 2 && p2[0] == '=')
    ensures l1 + c1 + d1 + p1 == l2 + c2 + d2 + p2 <==> l1 == l2 && c1 == c2 && d1 == d2 && p1 == p2
  {
    var a, b := l1 + c1 + d1 + p1, l2 + c2 + d2 + p2;
    if a == b {
      assert a[0] == if l1 != "" then l1[0] else if c1 != "" then 'x' else d1[0];
      assert b[0] == if l2 != "" then l2[0] else if c2 != "" then 'x' else d2[0];
      assert |l1| == |l2|;
      assert l1 == a[..|l1|] && l2 == b[..|l2|];
      assert a[|l1|] == if c1 != "" then 'x' else d1[0];
      assert b[|l2|] == if c2 != "" then 'x' else d2[0];
      assert |c1| == |c2|;
      var k := |l1| + |c1|;
      assert d1 == a[k..k + 2] && d2 == b[k..k + 2] && p1 == a[k + 2..] && p2 == b[k + 2..];
    }
  }

  lemma PieceLike(m: San, letter: string, cap: string, dest: string, promo: string)
    requires m.Piece? && WellFormed(m) && IsLoose(letter, "", dest, promo) && cap in ["", "x"]
    ensures MoveSignature(m) == letter + cap + dest + promo <==> Matches(m, letter, cap == "x", dest, promo)
  {
    var c := if m.capture then "x" else "";
    PartsEqual([m.letter], c, [m.file, m.rank], "", letter, cap, dest, promo);
    assert MoveSignature(m) == [m.letter] + c + [m.file, m.rank] + "";
  }

  lemma PawnLike(m: San, letter: string, cap: string, dest: string, promo: string)
    requires m.Pawn? && WellFormed(m) && IsLoose(letter, "", dest, promo) && cap in ["", "x"]
    ensures MoveSignature(m) == letter + cap + dest + promo <==> Matches(m, letter, cap == "x", dest, promo)
  {
    var c := if m.from == "" then "" else "x";
    var p := if m.promo.Some? then ['=', m.promo.value] else "";
    PartsEqual("", c, [m.file, m.rank], p, letter, cap, dest, promo);
    assert MoveSignature(m) == "" + c + [m.file, m.rank] + p;
  }

  lemma CastleUnlike(long: bool, letter: string, cap: string, dest: string, promo: string)
    requires IsLoose(letter, "", dest, promo) && cap in ["", "x"]
    ensures MoveSignature(Castle(long)) != letter + cap + dest + promo
  {
    var t := letter + cap + dest + promo;
    assert t[0] == if letter != "" then letter[0] else if cap != "" then 'x' else dest[0];
    assert MoveSignature(Castle(long))[0] == 'O';
  }

  // ---------- resolving ----------

  /** The legal moves that match. */
  function Matching(r: Rules, p: Position, letter: string, capture: bool, dest: string, promo: string): set<int> {
    set i | 0 <= i < |r.valid(p)| && Matches(r.san(p, r.valid(p)[i]), letter, capture, dest, promo)
  }

  lemma SignedMatching(
    r: Rules, p: Position, letter: string, between: string, dest: string, promo: string, marks: string)
    requires Lawful(r) && IsLoose(letter, between, dest, promo) && OnlyMarks(marks)
    ensures Signed(r, p, letter + between + dest + promo + marks)
      == Matching(r, p, letter, !Lacks(between, 'x'), dest, promo)
  {
    var t := letter + between + dest + promo;
    LooseNormal(letter, between, dest, promo, marks);
    LooseEnds(letter, between, dest, promo);
    LooseSignature(letter, between, dest, promo);
    assert Signature(t + marks) == BareSignature(t);
    forall i | 0 <= i < |r.valid(p)|
      ensures MoveSignature(r.san(p, r.valid(p)[i])) == Signature(t + marks)
        <==> Matches(r.san(p, r.valid(p)[i]), letter, !Lacks(between, 'x'), dest, promo)
    {
      assert WellFormed(r.san(p, r.valid(p)[i]));
      MatchesSigned(r.san(p, r.valid(p)[i]), letter, between, dest, promo);
    }
  }

  /** A text that the library does not decode, and that is no legal move's own spelling, means the one legal
      move of its piece, capture, square and promotion, whatever origin is written; several are ambiguous,
      none is illegal. */
  lemma LooseResolves(
    r: Rules, p: Position, letter: string, between: string, dest: string, promo: string, marks: string)
    requires Lawful(r) && IsLoose(letter, between, dest, promo) && OnlyMarks(marks)
    requires r.decode(p, letter + between + dest + promo + marks) == None
    requires forall m :: m in r.valid(p) ==> Core(r.san(p, m)) != letter + between + dest + promo
    ensures var res := Resolve(r, p, letter + between + dest + promo + marks);
      var found := Matching(r, p, letter, !Lacks(between, 'x'), dest, promo);
      && (|found| == 0 <==> res == Err(IllegalMove))
      && (|found| > 1 <==> res == Err(AmbiguousMove))
      && (forall i :: found == {i} ==> res == Ok((r.valid(p)[i], Encode(r, p, r.valid(p)[i]))))
  {
    var t := letter + between + dest + promo;
    LooseNormal(letter, between, dest, promo, marks);
    SignedMatching(r, p, letter, between, dest, promo, marks);
    NotSpelled(r, p, t + marks, t);
    SignatureDecides(r, p, t + marks);
  }

  lemma SignatureDecides(r: Rules, p: Position, norm: string)
    requires Lawful(r) && norm != "" && NormalizeSan(norm) == norm
    requires r.decode(p, norm) == None && Spelled(r, p, norm) == {}
    ensures var res, found := Resolve(r, p, norm), Signed(r, p, norm);
      && (|found| == 0 <==> res == Err(IllegalMove))
      && (|found| > 1 <==> res == Err(AmbiguousMove))
      && (forall i :: found == {i} ==> res == Ok((r.valid(p)[i], Encode(r, p, r.valid(p)[i]))))
  {
    var found := Signed(r, p, norm);
    ResolveDecides(r, p, norm);
    if |found| == 1 { OnlyFound(r, p, norm, found); }
  }

  lemma OnlyFound(r: Rules, p: Position, norm: string, found: set<int>)
    requires Lawful(r) && Resolve(r, p, norm).Ok?
    requires exists i :: i in found && 0 <= i < |r.valid(p)| && Resolve(r, p, norm).value.0 == r.valid(p)[i]
    ensures forall i :: found == {i} ==>
      0 <= i < |r.valid(p)| && Resolve(r, p, norm) == Ok((r.valid(p)[i], Encode(r, p, r.valid(p)[i])))
  {
    ResolvedIsLegal(r, p, norm);
  }

  lemma NotSpelled(r: Rules, p: Position, norm: string, t: string)
    requires StripCheck(norm) == t && forall m :: m in r.valid(p) ==> Core(r.san(p, m)) != t
    ensures Spelled(r, p, norm) == {}
  {
  }
}
