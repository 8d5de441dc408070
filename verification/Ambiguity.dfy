/** An ambiguous piece read never stops the reconciliation of a sheet (chesskit/san.go,
    internal/recognition/postprocess.go). */
module Ambiguity {
  import opened Text
  import opened Sorting
  import opened ChessRules
  import opened SanMoves
  import opened Reconciliation

  lemma PieceReadNormal(san: string)
    requires PieceDest(san).Some?
    ensures NormalizeSan(san) == san && StripCheck(san) == TrimMarks(san)
    ensures Signature(san) == BareSignature(TrimMarks(san))
  {
    var t := TrimMarks(san);
    assert san[0] == t[0];
    assert Solid(san) by {
      if |t| < |san| { assert san[|san| - 1] == '+' || san[|san| - 1] == '#'; }
    }
    TrimSolid(san);
    assert "O-O"[0] == 'O' && "O-O-O"[0] == 'O' && "0-0"[0] == '0' && "0-0-0"[0] == '0';
    assert "o-o"[0] == 'o' && "o-o-o"[0] == 'o';
  }

  lemma {:induction false} WithoutKeepsEnd(s: string, a: char, b: char, c: char)
    requires a != c && b != c
    ensures var w := Without(s + [a, b], c); |w| >= 2 && w[|w| - 2..] == [a, b]
  {
    WithoutAppend(s, [a, b], c);
    WithoutAbsent([a, b], c);
    var w := Without(s, c) + [a, b];
    assert w[|w| - 2..] == [a, b];
  }

  /** With an '=' in it, the signature of a piece read shows the '='. */
  lemma PromotedRead(t: string)
    requires |t| >= 3 && IsPieceLetter(t[0]) && IsRank(t[|t| - 1])
    ensures BareSignature(t)[0] == t[0]
    ensures IndexOf(t, '=') >= 0 ==> '=' in BareSignature(t)
  {
    var eq := IndexOf(t, '=');
    if eq >= 0 {
      assert t[eq] == '=' && eq + 1 < |t|;
      var promo := ['=', t[eq + 1]];
      assert promo[0] == '=';
      assert '=' in promo;
      SignatureEndsWith(t);
    }
  }

  lemma SignatureEndsWith(t: string)
    requires IndexOf(t, '=') >= 0 && IndexOf(t, '=') + 1 < |t|
    ensures '=' in BareSignature(t)
  {
    var promo := PromotionOf(t);
    var front := SignatureFront(t);
    assert promo[0] == '=';
    assert (front + promo)[|front|] == '=';
  }

  lemma SignatureFront(t: string) returns (front: string)
    ensures BareSignature(t) == front + PromotionOf(t)
  {
    var piece, body := PieceOf(t), BodyOf(t);
    front := piece + CaptureOf(body) + DestOf(Without(if |piece| <= |body| then body[|piece|..] else "", 'x'));
  }

  lemma PlainRead(t: string)
    requires |t| >= 3 && IsPieceLetter(t[0]) && IsFile(t[|t| - 2]) && IsRank(t[|t| - 1])
    requires IndexOf(t, '=') < 0
    ensures var s := BareSignature(t); |s| >= 3 && s[|s| - 2..] == t[|t| - 2..]
  {
    PlainDest(t);
    assert PieceOf(t) == t[..1] && BodyOf(t) == t && PromotionOf(t) == "";
    EndsWith(t[..1], CaptureOf(t), t[|t| - 2..]);
  }

  lemma PlainDest(t: string)
    requires |t| >= 3 && IsFile(t[|t| - 2]) && IsRank(t[|t| - 1])
    ensures DestOf(Without(t[1..], 'x')) == t[|t| - 2..]
  {
    var head, dest := t[1..|t| - 2], [t[|t| - 2], t[|t| - 1]];
    assert t[1..] == head + dest && t[|t| - 2..] == dest;
    WithoutKeepsEnd(head, t[|t| - 2], t[|t| - 1], 'x');
  }

  lemma EndsWith(piece: string, capture: string, dest: string)
    requires |piece| == 1 && |dest| == 2
    ensures var s := piece + capture + dest + ""; |s| >= 3 && s[|s| - 2..] == dest
  {
  }

  lemma EncodedTarget(r: Rules, p: Position, m: Move)
    requires Lawful(r) && m in r.valid(p) && r.san(p, m).Piece?
    ensures PieceDest(Encode(r, p, m)) == Some((r.san(p, m).letter, [r.san(p, m).file, r.san(p, m).rank]))
  {
    EncodeSolid(r, p, m);
    var n := r.san(p, m);
    assert WellFormed(n);
    var core := Core(n);
    assert core[0] == n.letter && core[|core| - 2..] == [n.file, n.rank];
  }

  /** A signature that starts with a piece letter is that of a piece move, and shows no '='. */
  lemma PieceOnly(n: San)
    requires WellFormed(n) && IsPieceLetter(MoveSignature(n)[0])
    ensures n.Piece? && '=' !in MoveSignature(n)
    ensures var sig := MoveSignature(n); sig[0] == n.letter && sig[|sig| - 2..] == [n.file, n.rank]
  {
    if n.Piece? {
      assert MoveSignature(n) == ([n.letter] + (if n.capture then "x" else "")) + [n.file, n.rank];
    }
  }

  /** A legal move with the signature of a piece read moves that piece to that square. */
  lemma SignatureGivesTarget(r: Rules, p: Position, san: string, m: Move)
    requires Lawful(r) && m in r.valid(p) && PieceDest(san).Some?
    requires SameSignature(r, p, NormalizeSan(san), m)
    ensures SameTarget(san, Encode(r, p, m))
  {
    var t, n := TrimMarks(san), r.san(p, m);
    PieceReadNormal(san);
    SignatureOfEncoded(r, p, m);
    assert WellFormed(n);
    assert MoveSignature(n) == BareSignature(t);
    PromotedRead(t);
    PieceOnly(n);
    PlainRead(t);
    EncodedTarget(r, p, m);
    assert PieceDest(san) == Some((t[0], t[|t| - 2..]));
  }

  /** A test that passes wherever another one does keeps at least as much. */
  lemma {:induction false} KeepsMore<T(!new), U(!new)>(a: seq<T>, b: seq<U>, f: T -> bool, g: U -> bool)
    requires |a| == |b| && forall i :: 0 <= i < |a| && f(a[i]) ==> g(b[i])
    ensures |Filter(a, f)| <= |Filter(b, g)|
    decreases |a|
  {
    if a == [] {
    } else {
      forall i | 0 <= i < |a[1..]| && f(a[1..][i]) ensures g(b[1..][i]) { assert f(a[i + 1]); }
      KeepsMore(a[1..], b[1..], f, g);
    }
  }

  lemma EnoughChoices(r: Rules, p: Position, san: string, moves: seq<Move>)
    requires forall m :: m in moves && SameSignature(r, p, NormalizeSan(san), m) ==> SameTarget(san, Encode(r, p, m))
    ensures |Filter(Encodings(r, p, moves), l => SameTarget(san, l))|
      >= |MatchingMoves(r, p, NormalizeSan(san), moves)|
  {
    forall i | 0 <= i < |moves| && SameSignature(r, p, NormalizeSan(san), moves[i])
      ensures SameTarget(san, Encodings(r, p, moves)[i])
    {
      assert moves[i] in moves;
    }
    KeepsMore(moves, Encodings(r, p, moves), m => SameSignature(r, p, NormalizeSan(san), m), l => SameTarget(san, l));
  }

  lemma ChoicesValidate(r: Rules, p: Position, fen: string, l: string)
    requires Lawful(r) && ReadFen(r, fen) == Some(p) && l in LegalSans(r, fen)
    ensures Validate(r, fen, l).Ok?
  {
    var i :| 0 <= i < |r.valid(p)| && l == Encode(r, p, r.valid(p)[i]);
    ResolveEncoded(r, p, r.valid(p)[i]);
  }

  /** An ambiguous piece read has at least two disambiguations; the least of them can be played,
      and the read is settled with it, at low confidence. */
  lemma AmbiguousNeverBlocks(r: Rules, fen: string, san: string, conf: real)
    requires Lawful(r) && Validate(r, fen, san) == Err(AmbiguousMove) && PieceDest(san).Some?
    ensures Settle(r, fen, san, conf).Some?
    ensures var s := Settle(r, fen, san, conf).value;
      && |s.suggestions| >= 2 && s.san == s.suggestions[0]
      && (forall l :: l in s.suggestions <==> l in LegalSans(r, fen) && SameTarget(san, l))
      && (forall l :: l in s.suggestions ==> LexLe(s.san, l))
      && s.corrected && s.confidence == CONF_AMBIGUOUS_PICK
  {
    var p := ReadFen(r, fen).value;
    assert Resolve(r, p, san) == Err(AmbiguousMove);
    forall m | m in r.valid(p) && SameSignature(r, p, NormalizeSan(san), m)
      ensures SameTarget(san, Encode(r, p, m))
    {
      SignatureGivesTarget(r, p, san, m);
    }
    EnoughChoices(r, p, san, r.valid(p));
    var found := Disambiguations(san, LegalSans(r, fen));
    assert |found| >= 2;
    var choices := Sort(found, LexLe);
    SortedChoices(found);
    ChoicesValidate(r, p, fen, choices[0]);
    assert PickDisambiguation(r, fen, san)
      == Some(Settled(choices[0], Validate(r, fen, choices[0]).value, true, CONF_AMBIGUOUS_PICK, choices));
  }

  lemma SortedChoices(found: seq<string>)
    requires found != []
    ensures var choices := Sort(found, LexLe);
      && |choices| == |found| && choices[0] in found
      && (forall l :: l in choices <==> l in found)
      && (forall l :: l in choices ==> LexLe(choices[0], l))
  {
    LexOrder();
    SortCorrect(found, LexLe);
    var choices := Sort(found, LexLe);
    forall l ensures l in choices <==> l in found {
      assert l in multiset(choices) <==> l in multiset(found);
    }
    forall l | l in choices ensures LexLe(choices[0], l) {
      var i :| 0 <= i < |choices| && choices[i] == l;
      if i > 0 { assert LexLe(choices[0], choices[i]); } else { assert LexLe(l, l); }
    }
    assert choices[0] in choices;
  }

  /** The situation is real: the toy rules read "Nd2" as ambiguous. */
  lemma ToyAmbiguity(p: Position)
    ensures Resolve(Toy(), p, "Nd2") == Err(AmbiguousMove)
  {
    var r, san := Toy(), "Nd2";
    BareRead('N', 'd', '2');
    assert NormalizeSan(san) == san;
    assert r.decode(p, san) == None by { assert |"Nbd2"| == 4 && |"Nfd2"| == 4; }
    ToySignatures(p);
    var both := MatchingMoves(r, p, san, [0, 1]);
    FilterAll([0, 1], m => SameSignature(r, p, san, m));
    FilterNone([0, 1], m => SameSpelling(r, p, san, m));
  }

  lemma {:induction false} FilterAll<T(!new)>(s: seq<T>, keep: T -> bool)
    requires forall x :: x in s ==> keep(x)
    ensures Filter(s, keep) == s
  {
    if s == [] {
    } else {
      FilterAll(s[1..], keep);
    }
  }

  /** A piece read without origin squares is its own signature. */
  lemma BareRead(letter: char, file: char, rank: char)
    requires IsPieceLetter(letter) && IsFile(file) && IsRank(rank)
    ensures Signature([letter, file, rank]) == [letter, file, rank]
    ensures NormalizeSan([letter, file, rank]) == [letter, file, rank]
    ensures PieceDest([letter, file, rank]) == Some((letter, [file, rank]))
  {
    var bare, s := Piece(letter, "", false, file, rank), [letter, file, rank];
    assert Core(bare) == s && MoveSignature(bare) == s;
    PieceSignature(bare);
    assert TrimMarks(s) == s && s[1..] == [file, rank];
    PieceReadNormal(s);
  }

  lemma ToyEncoded(p: Position, m: Move)
    requires m == 0 || m == 1
    ensures Signature(Encode(Toy(), p, m)) == MoveSignature(ToySan(p, m))
    ensures TrimMarks(Encode(Toy(), p, m)) == Core(ToySan(p, m)) && Solid(Encode(Toy(), p, m))
  {
    ToyLawful();
    assert m in Toy().valid(p);
    SignatureOfEncoded(Toy(), p, m);
    EncodeSolid(Toy(), p, m);
  }

  lemma ToySignature(p: Position, m: Move)
    requires m == 0 || m == 1
    ensures SameSignature(Toy(), p, "Nd2", m)
  {
    ToyEncoded(p, m);
    BareRead('N', 'd', '2');
    assert MoveSignature(ToySan(p, m)) == ['N', 'd', '2'];
  }

  lemma ToySpelling(p: Position, m: Move)
    requires m == 0 || m == 1
    ensures !SameSpelling(Toy(), p, "Nd2", m)
  {
    ToyEncoded(p, m);
    TrimSolid(Encode(Toy(), p, m));
    assert |Core(ToySan(p, m))| == 4;
    TrimSolid("Nd2");
    assert TrimMarks("Nd2") == "Nd2";
  }

  lemma ToySignatures(p: Position)
    ensures forall m :: m in [0, 1] ==> SameSignature(Toy(), p, "Nd2", m) && !SameSpelling(Toy(), p, "Nd2", m)
  {
    forall m | m in [0, 1]
      ensures SameSignature(Toy(), p, "Nd2", m) && !SameSpelling(Toy(), p, "Nd2", m)
    {
      ToySignature(p, m);
      ToySpelling(p, m);
    }
  }
}
