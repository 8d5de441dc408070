/** Resolving algebraic notation against the legal moves, and replaying a list of moves
    (chesskit/san.go). */
module SanMoves {
  import opened Text
  import opened ChessRules

  datatype Error = BadFen | IllegalMove | AmbiguousMove
  datatype Result<+T> = Ok(value: T) | Err(error: Error)

  const START_BOARD: string := "rnbqkbnr/pppppppp/8/8/" + "8/8/PPPPPPPP/RNBQKBNR"
  const STARTING_FEN: string :=
    START_BOARD + " " + ("w" + " " + ("KQkq" + " " + ("-" + " " + ("0" + " " + "1"))))

  /** The empty string stands for the start position. */
  function StartOf(fen: string): string {
    if fen == "" then STARTING_FEN else fen
  }

  /** positionFromFEN. */
  function ReadFen(r: Rules, fen: string): Option<Position> {
    r.read(StartOf(fen))
  }

  // ---------- spelling ----------

  function StripCheck(s: string): string {
    TrimMarks(Trim(s))
  }

  /** Castling may be written with zeros, capital or small letters. */
  function NormalizeSan(s: string): string {
    var t := Trim(s);
    var core := StripCheck(t);
    TrimSolidOrEmpty(t);
    var suffix := t[|core|..];
    if core == "0-0-0" || core == "O-O-O" || core == "o-o-o" then "O-O-O" + suffix
    else if core == "0-0" || core == "O-O" || core == "o-o" then "O-O" + suffix
    else t
  }

  lemma TrimSolidOrEmpty(s: string)
    ensures |StripCheck(s)| <= |s|
  {
    TrimRightShape(TrimLeft(s));
  }

  function PieceOf(t: string): string {
    if t != "" && 'A' <= t[0] <= 'Z' && t[0] != 'O' then t[..1] else ""
  }

  function PromotionOf(t: string): string {
    var eq := IndexOf(t, '=');
    if 0 <= eq && eq + 1 < |t| then ['=', t[eq + 1]] else ""
  }

  function BodyOf(t: string): string {
    var eq := IndexOf(t, '=');
    if 0 <= eq then t[..eq] else t
  }

  function CaptureOf(body: string): string {
    if 0 <= IndexOf(body, 'x') then "x" else ""
  }

  function DestOf(rest: string): string {
    if |rest| >= 2 then rest[|rest| - 2..] else ""
  }

  /** sanSignature, after its spelling clean-up. */
  function BareSignature(t: string): string {
    var piece, body := PieceOf(t), BodyOf(t);
    var rest := Without(if |piece| <= |body| then body[|piece|..] else "", 'x');
    piece + CaptureOf(body) + DestOf(rest) + PromotionOf(t)
  }

  /** The part of a notation that does not depend on the origin square. */
  function Signature(s: string): string {
    var t := StripCheck(NormalizeSan(s));
    if t == "O-O" || t == "O-O-O" then t else BareSignature(t)
  }

  // ---------- resolving one move ----------

  predicate SameSpelling(r: Rules, p: Position, norm: string, m: Move) {
    StripCheck(Encode(r, p, m)) == StripCheck(norm)
  }

  predicate SameSignature(r: Rules, p: Position, norm: string, m: Move) {
    Signature(Encode(r, p, m)) == Signature(norm)
  }

  function ExactMoves(r: Rules, p: Position, norm: string, moves: seq<Move>): (ms: seq<Move>)
    ensures forall m :: m in ms <==> m in moves && SameSpelling(r, p, norm, m)
  {
    Filter(moves, m => SameSpelling(r, p, norm, m))
  }

  function MatchingMoves(r: Rules, p: Position, norm: string, moves: seq<Move>): (ms: seq<Move>)
    ensures forall m :: m in ms <==> m in moves && SameSignature(r, p, norm, m)
  {
    Filter(moves, m => SameSignature(r, p, norm, m))
  }

  /** A notation the library decodes is that move. Otherwise it is the one legal move of the same
      spelling up to check marks, or the one legal move of the same signature. */
  function Resolve(r: Rules, p: Position, san: string): Result<(Move, string)> {
    ResolveNormal(r, p, NormalizeSan(san))
  }

  function ResolveNormal(r: Rules, p: Position, norm: string): Result<(Move, string)> {
    ResolveAmong(r, p, norm, ExactMoves(r, p, norm, r.valid(p)), MatchingMoves(r, p, norm, r.valid(p)))
  }

  function ResolveAmong(r: Rules, p: Position, norm: string, exact: seq<Move>, matches: seq<Move>)
    : Result<(Move, string)>
  {
    if norm == "" then Err(IllegalMove)
    else match r.decode(p, norm)
      case Some(m) => Ok((m, Encode(r, p, m)))
      case None =>
        if |exact| == 1 then Ok((exact[0], Encode(r, p, exact[0])))
        else if |matches| == 1 then Ok((matches[0], Encode(r, p, matches[0])))
        else if |matches| > 1 then Err(AmbiguousMove)
        else Err(IllegalMove)
  }

  lemma CandidatesSnoc(r: Rules, p: Position, norm: string, moves: seq<Move>, i: nat)
    requires i < |moves|
    ensures ExactMoves(r, p, norm, moves[..i + 1]) == ExactMoves(r, p, norm, moves[..i])
      + if SameSpelling(r, p, norm, moves[i]) then [moves[i]] else []
    ensures MatchingMoves(r, p, norm, moves[..i + 1]) == MatchingMoves(r, p, norm, moves[..i])
      + if SameSignature(r, p, norm, moves[i]) then [moves[i]] else []
  {
    assert moves[..i + 1] == moves[..i] + [moves[i]];
    FilterSnoc(moves[..i], moves[i], m => SameSpelling(r, p, norm, m));
    FilterSnoc(moves[..i], moves[i], m => SameSignature(r, p, norm, m));
  }

  /** The loop over the legal moves. */
  method GatherMoves(r: Rules, p: Position, norm: string, moves: seq<Move>)
    returns (exact: seq<Move>, matches: seq<Move>)
    ensures exact == ExactMoves(r, p, norm, moves) && matches == MatchingMoves(r, p, norm, moves)
  {
    var wantSig, wantStripped := Signature(norm), StripCheck(norm);
    exact, matches := [], [];
    for i := 0 to |moves|
      invariant exact == ExactMoves(r, p, norm, moves[..i])
      invariant matches == MatchingMoves(r, p, norm, moves[..i])
    {
      var same, alike := CompareMove(r, p, norm, wantStripped, wantSig, moves, i);
      exact, matches := exact + same, matches + alike;
    }
    assert moves[..|moves|] == moves;
  }

  /** One legal move: what it adds to either list. */
  method CompareMove(
    r: Rules, p: Position, norm: string, wantStripped: string, wantSig: string, moves: seq<Move>, i: nat)
    returns (same: seq<Move>, alike: seq<Move>)
    requires wantStripped == StripCheck(norm) && wantSig == Signature(norm) && i < |moves|
    ensures ExactMoves(r, p, norm, moves[..i + 1]) == ExactMoves(r, p, norm, moves[..i]) + same
    ensures MatchingMoves(r, p, norm, moves[..i + 1]) == MatchingMoves(r, p, norm, moves[..i]) + alike
  {
    var enc := Encode(r, p, moves[i]);
    CandidatesSnoc(r, p, norm, moves, i);
    same := if StripCheck(enc) == wantStripped then [moves[i]] else [];
    alike := if Signature(enc) == wantSig then [moves[i]] else [];
  }

  method ResolveMove(r: Rules, p: Position, san: string) returns (res: Result<(Move, string)>)
    ensures res == Resolve(r, p, san)
  {
    var norm := NormalizeSan(san);
    if norm == "" { return Err(IllegalMove); }
    var direct := r.decode(p, norm);
    if direct.Some? { return Ok((direct.value, Encode(r, p, direct.value))); }

    var exact, matches := GatherMoves(r, p, norm, r.valid(p));
    if |exact| == 1 { return Ok((exact[0], Encode(r, p, exact[0]))); }
    if |matches| == 1 { return Ok((matches[0], Encode(r, p, matches[0]))); }
    if |matches| > 1 { return Err(AmbiguousMove); }
    return Err(IllegalMove);
  }

  function Next(r: Rules, p: Position, san: string): Result<Position> {
    match Resolve(r, p, san)
    case Ok((m, _)) => Ok(r.update(p, m))
    case Err(e) => Err(e)
  }

  function Validate(r: Rules, fen: string, san: string): Result<string> {
    match ReadFen(r, fen)
    case None => Err(BadFen)
    case Some(p) =>
      match Next(r, p, san)
      case Ok(q) => Ok(r.write(q))
      case Err(e) => Err(e)
  }

  function Encodings(r: Rules, p: Position, moves: seq<Move>): (sans: seq<string>)
    ensures |sans| == |moves|
    ensures forall i :: 0 <= i < |moves| ==> sans[i] == Encode(r, p, moves[i])
  {
    seq(|moves|, i requires 0 <= i < |moves| => Encode(r, p, moves[i]))
  }

  /** LegalMovesSAN, with its error dropped as its callers do. */
  function LegalSans(r: Rules, fen: string): seq<string> {
    match ReadFen(r, fen)
    case None => []
    case Some(p) => Encodings(r, p, r.valid(p))
  }

  // ---------- facts about notation ----------

  lemma EncodeSolid(r: Rules, p: Position, m: Move)
    requires Lawful(r) && m in r.valid(p)
    ensures Solid(Encode(r, p, m))
    ensures TrimMarks(Encode(r, p, m)) == Core(r.san(p, m))
  {
    var core := Core(r.san(p, m));
    assert WellFormed(r.san(p, m));
    CoreEnds(r.san(p, m));
    TrimMarksOf(core, MarkText(r.mark(p, m)));
  }

  lemma CoreEnds(m: San)
    requires WellFormed(m)
    ensures |Core(m)| >= 2
    ensures !IsSpace(Core(m)[0]) && Core(m)[0] != '0'
    ensures IsDigit(Core(m)[|Core(m)| - 1]) || 'A' <= Core(m)[|Core(m)| - 1] <= 'Z'
  {
    match m
    case Castle(long) =>
    case Piece(letter, from, capture, file, rank) =>
      assert Core(m)[|Core(m)| - 1] == rank;
    case Pawn(from, file, rank, promo) =>
      assert Core(m)[|Core(m)| - 1] == if promo.Some? then promo.value else rank;
      assert Core(m)[0] == if from == "" then file else from[0];
  }

  lemma TrimMarksOf(core: string, mark: string)
    requires core != "" && core[|core| - 1] != '+' && core[|core| - 1] != '#'
    requires mark == "" || mark == "+" || mark == "#"
    ensures TrimMarks(core + mark) == core
  {
    if mark == "" {
      assert core + mark == core;
    } else {
      assert (core + mark)[..|core + mark| - 1] == core;
    }
  }

  /** A legal move written canonically is read as itself. */
  lemma ResolveEncoded(r: Rules, p: Position, m: Move)
    requires Lawful(r) && m in r.valid(p)
    ensures NormalizeSan(Encode(r, p, m)) == Encode(r, p, m)
    ensures Resolve(r, p, Encode(r, p, m)) == Ok((m, Encode(r, p, m)))
  {
    var s := Encode(r, p, m);
    EncodeSolid(r, p, m);
    TrimSolid(s);
    CoreEnds(r.san(p, m));
    var core := Core(r.san(p, m));
    assert s == core + s[|core|..];
    assert core[0] != 'o' by { assert WellFormed(r.san(p, m)); }
    assert core[0] != '0' && "0-0"[0] == '0' && "0-0-0"[0] == '0' && "o-o"[0] == 'o' && "o-o-o"[0] == 'o';
  }

  lemma ResolvedIsLegal(r: Rules, p: Position, san: string)
    requires Lawful(r) && Resolve(r, p, san).Ok?
    ensures Resolve(r, p, san).value.0 in r.valid(p)
    ensures Resolve(r, p, san).value.1 == Encode(r, p, Resolve(r, p, san).value.0)
  {
    var norm := NormalizeSan(san);
    CandidatesLegal(r, p, norm);
    ChosenIsLegal(r, p, norm, ExactMoves(r, p, norm, r.valid(p)), MatchingMoves(r, p, norm, r.valid(p)));
  }

  lemma ChosenIsLegal(r: Rules, p: Position, norm: string, exact: seq<Move>, matches: seq<Move>)
    requires Lawful(r) && ResolveAmong(r, p, norm, exact, matches).Ok?
    requires exact != [] ==> exact[0] in r.valid(p)
    requires matches != [] ==> matches[0] in r.valid(p)
    ensures var (m, canonical) := ResolveAmong(r, p, norm, exact, matches).value;
      m in r.valid(p) && canonical == Encode(r, p, m)
  {
  }

  lemma CandidatesLegal(r: Rules, p: Position, norm: string)
    ensures var exact := ExactMoves(r, p, norm, r.valid(p)); exact != [] ==> exact[0] in r.valid(p)
    ensures var matches := MatchingMoves(r, p, norm, r.valid(p)); matches != [] ==> matches[0] in r.valid(p)
  {
    var exact, matches := ExactMoves(r, p, norm, r.valid(p)), MatchingMoves(r, p, norm, r.valid(p));
    if exact != [] { assert exact[0] in exact; }
    if matches != [] { assert matches[0] in matches; }
  }

  lemma NormalizeTrimmed(san: string)
    ensures NormalizeSan(Trim(san)) == NormalizeSan(san)
  {
    TrimIdempotent(san);
  }

  lemma ResolveTrimmed(r: Rules, p: Position, san: string)
    ensures Resolve(r, p, Trim(san)) == Resolve(r, p, san)
  {
    NormalizeTrimmed(san);
  }

  /** What no legal move is spelled like, and no legal move has the signature of, is illegal. */
  lemma NoMatchIllegal(r: Rules, p: Position, san: string)
    requires NormalizeSan(san) == san && r.decode(p, san) == None
    requires forall m :: m in r.valid(p) ==> !SameSpelling(r, p, san, m) && !SameSignature(r, p, san, m)
    ensures Resolve(r, p, san) == Err(IllegalMove)
  {
    FilterNone(r.valid(p), m => SameSpelling(r, p, san, m));
    FilterNone(r.valid(p), m => SameSignature(r, p, san, m));
  }

  /** No legal move is spelled "?" or "-0", or has such a signature. */
  lemma NeverSpelled(r: Rules, p: Position, m: Move)
    requires Lawful(r) && m in r.valid(p)
    ensures !SameSpelling(r, p, "?", m) && !SameSignature(r, p, "?", m)
    ensures !SameSpelling(r, p, "-0", m) && !SameSignature(r, p, "-0", m)
  {
    EncodeSolid(r, p, m);
    TrimSolid(Encode(r, p, m));
    assert WellFormed(r.san(p, m));
    SignatureOfEncoded(r, p, m);
    Unspelled(r.san(p, m));
    QuestionSignature();
    MinusZeroSignature();
  }

  lemma Unspelled(m: San)
    requires WellFormed(m)
    ensures |Core(m)| >= 2 && Core(m) != "-0" && MoveSignature(m) != "-0"
  {
    CoreEnds(m);
    SignatureEnd(m);
    if m.Castle? { assert Core(m)[0] == 'O'; }
    if m.Piece? { assert Core(m)[|Core(m)| - 1] == m.rank; }
    if m.Pawn? { assert Core(m)[|Core(m)| - 1] == if m.promo.Some? then m.promo.value else m.rank; }
  }

  /** The review page's placeholder and the empty text are never moves. */
  lemma PlaceholderIllegal(r: Rules, p: Position, san: string)
    requires Lawful(r) && (Trim(san) == "" || Trim(san) == "?")
    ensures Resolve(r, p, san) == Err(IllegalMove)
  {
    if Trim(san) == "?" {
      QuestionSignature();
      forall m | m in r.valid(p) ensures !SameSpelling(r, p, "?", m) && !SameSignature(r, p, "?", m) {
        NeverSpelled(r, p, m);
      }
      NoMatchIllegal(r, p, "?");
      ResolveTrimmed(r, p, san);
    }
  }

  lemma QuestionSignature()
    ensures NormalizeSan("?") == "?" && StripCheck("?") == "?" && Signature("?") == ""
  {
    TrimSolid("?");
    assert NormalizeSan("?") == "?" && StripCheck("?") == "?";
    assert "?"[1..] == "";
  }

  /** What "0-0" becomes when it is scanned as a word is no move, unless the library decodes it. */
  lemma MinusZeroIllegal(r: Rules, p: Position)
    requires Lawful(r) && r.decode(p, "-0") == None
    ensures Resolve(r, p, "-0") == Err(IllegalMove)
  {
    MinusZeroSignature();
    forall m | m in r.valid(p) ensures !SameSpelling(r, p, "-0", m) && !SameSignature(r, p, "-0", m) {
      NeverSpelled(r, p, m);
    }
    NoMatchIllegal(r, p, "-0");
  }

  /** A negative move number is no move either. */
  lemma NegativeIllegal(r: Rules, p: Position, n: int)
    requires Lawful(r) && n < 0
    ensures Resolve(r, p, NumberText(n)) == Err(IllegalMove)
  {
    var s := NumberText(n);
    NumberSpelling(Decimal(-n));
    forall m | m in r.valid(p) ensures !SameSpelling(r, p, s, m) && !SameSignature(r, p, s, m) {
      NeverDotted(r, p, s, m);
    }
    NoMatchIllegal(r, p, s);
  }

  predicate EndsDotted(s: string) {
    s != "" && s[|s| - 1] == '.'
  }

  lemma NeverDotted(r: Rules, p: Position, s: string, m: Move)
    requires Lawful(r) && m in r.valid(p) && EndsDotted(StripCheck(s)) && EndsDotted(Signature(s))
    ensures !SameSpelling(r, p, s, m) && !SameSignature(r, p, s, m)
  {
    EncodedSpelling(r, p, m);
    EncodedSignature(r, p, m);
  }

  /** Neither a legal move nor its signature ends with a dot. */
  lemma EncodedSpelling(r: Rules, p: Position, m: Move)
    requires Lawful(r) && m in r.valid(p)
    ensures !EndsDotted(StripCheck(Encode(r, p, m)))
  {
    EncodeSolid(r, p, m);
    TrimSolid(Encode(r, p, m));
    assert WellFormed(r.san(p, m));
    CoreEnds(r.san(p, m));
  }

  lemma EncodedSignature(r: Rules, p: Position, m: Move)
    requires Lawful(r) && m in r.valid(p)
    ensures !EndsDotted(Signature(Encode(r, p, m)))
  {
    assert WellFormed(r.san(p, m));
    SignatureOfEncoded(r, p, m);
    SignatureEnd(r.san(p, m));
  }

  /** A number with its dot is its own normal form, and its signature ends with the dot. */
  lemma NumberSpelling(d: string)
    requires d != "" && AllDigits(d)
    ensures var s := "-" + d + ".";
      NormalizeSan(s) == s && EndsDotted(StripCheck(s)) && EndsDotted(Signature(s))
  {
    var s := "-" + d + ".";
    assert EndsDotted(s) && s[0] == '-';
    PlainSpelling(s);
    BareNumber(d);
  }

  /** What ends with a dot and starts with a dash needs no clean-up. */
  lemma PlainSpelling(s: string)
    requires EndsDotted(s) && s[0] == '-'
    ensures NormalizeSan(s) == s && StripCheck(s) == s && Signature(s) == BareSignature(s)
  {
    TrimSolid(s);
    assert TrimMarks(s) == s && StripCheck(s) == s && NormalizeSan(s) == s;
  }

  lemma BareNumber(d: string)
    requires d != "" && AllDigits(d)
    ensures BareSignature("-" + d + ".") == [d[|d| - 1], '.']
  {
    var s := "-" + d + ".";
    assert Lacks(s, '=') && Lacks(s, 'x');
    assert PieceOf(s) == "" && BodyOf(s) == s && PromotionOf(s) == "" && CaptureOf(s) == "";
    assert s[0..] == s;
    WithoutAbsent(s, 'x');
    assert DestOf(s) == s[|s| - 2..] == [d[|d| - 1], '.'];
  }

  lemma MinusZeroSignature()
    ensures NormalizeSan("-0") == "-0" && StripCheck("-0") == "-0" && Signature("-0") == "-0"
  {
    var s := "-0";
    TrimSolid(s);
    assert TrimMarks(s) == s && StripCheck(s) == s && NormalizeSan(s) == s;
    BareMinusZero();
  }

  lemma BareMinusZero()
    ensures BareSignature("-0") == "-0"
  {
    var s := "-0";
    assert Lacks(s, '=') && Lacks(s, 'x');
    assert PieceOf(s) == "" && BodyOf(s) == s && PromotionOf(s) == "" && CaptureOf(s) == "";
    assert s[0..] == s;
    WithoutAbsent(s, 'x');
    assert DestOf(s) == s;
  }

  lemma SignatureEnd(m: San)
    requires WellFormed(m)
    ensures var s := MoveSignature(m); s != "" && s[|s| - 1] != '0' && s[|s| - 1] != '.'
  {
    var s := MoveSignature(m);
    if m.Piece? { assert s[|s| - 1] == m.rank; }
    if m.Pawn? { assert s[|s| - 1] == if m.promo.Some? then m.promo.value else m.rank; }
  }

  // ---------- signatures ----------

  lemma {:induction false} WithoutAppend(s: string, t: string, c: char)
    ensures Without(s + t, c) == Without(s, c) + Without(t, c)
  {
    if s == "" {
      assert s + t == t;
    } else {
      assert (s + t)[1..] == s[1..] + t;
      WithoutAppend(s[1..], t, c);
    }
  }

  lemma {:induction false} WithoutAbsent(s: string, c: char)
    requires Lacks(s, c)
    ensures Without(s, c) == s
  {
    if s == "" {
    } else {
      WithoutAbsent(s[1..], c);
      assert s == [s[0]] + s[1..];
    }
  }

  /** The signature of a move: letter, capture, destination and promotion. */
  function MoveSignature(m: San): string {
    match m
    case Castle(_) => Core(m)
    case Piece(letter, _, capture, file, rank) =>
      [letter] + (if capture then "x" else "") + [file, rank]
    case Pawn(from, file, rank, promo) =>
      (if from == "" then "" else "x") + [file, rank] + (if promo.Some? then ['=', promo.value] else "")
  }

  lemma WithoutTail(from: string, cap: string, dest: string)
    requires Lacks(from, 'x') && Lacks(dest, 'x') && |dest| == 2 && (cap == "" || cap == "x")
    ensures Without(from + cap + dest, 'x') == from + dest
    ensures (from + dest)[|from + dest| - 2..] == dest
  {
    WithoutAppend(from + cap, dest, 'x');
    WithoutAppend(from, cap, 'x');
    WithoutAbsent(from, 'x');
    WithoutAbsent(dest, 'x');
    assert cap == "x" ==> cap[1..] == "";
    assert Without(cap, 'x') == "";
    assert from + "" == from;
  }

  lemma PieceSignature(m: San)
    requires m.Piece? && WellFormed(m)
    ensures BareSignature(Core(m)) == MoveSignature(m)
  {
    var t, cap, dest := Core(m), if m.capture then "x" else "", [m.file, m.rank];
    var tail := m.from + cap + dest;
    assert t == [m.letter] + tail;
    assert Lacks(m.from, 'x') && Lacks(m.from, '=') && Lacks(dest, 'x') && Lacks(dest, '=');
    assert Lacks(t, '=');
    assert m.capture ==> t[1 + |m.from|] == 'x';
    assert m.capture <==> !Lacks(t, 'x');
    WithoutTail(m.from, cap, dest);
  }

  lemma PromotionMark(body: string, promo: string)
    requires Lacks(body, '=') && (promo == "" || (|promo| == 2 && promo[0] == '='))
    ensures IndexOf(body + promo, '=') == if promo == "" then -1 else |body|
  {
    if promo == "" {
      assert body + promo == body;
    } else {
      assert (body + promo)[..|body|] == body;
      IndexOfAt(body + promo, '=', |body|);
    }
  }

  lemma PawnSignature(m: San)
    requires m.Pawn? && WellFormed(m)
    ensures BareSignature(Core(m)) == MoveSignature(m)
  {
    var cap, dest := if m.from == "" then "" else "x", [m.file, m.rank];
    var promo := if m.promo.Some? then ['=', m.promo.value] else "";
    var body := m.from + cap + dest;
    assert Core(m) == body + promo;
    PawnBody(m, cap, dest);
    WithoutTail(m.from, cap, dest);
    PromotedBody(body, promo);
  }

  /** A pawn move without its promotion. */
  lemma PawnBody(m: San, cap: string, dest: string)
    requires m.Pawn? && WellFormed(m) && dest == [m.file, m.rank] && cap == if m.from == "" then "" else "x"
    ensures var body := m.from + cap + dest;
      && Lacks(m.from, 'x') && Lacks(dest, 'x') && Lacks(body, '=')
      && (m.from == "" <==> Lacks(body, 'x')) && body != "" && !('A' <= body[0] <= 'Z')
  {
    var body := m.from + cap + dest;
    assert m.from != "" ==> body[1] == 'x';
    assert body[0] == if m.from == "" then m.file else m.from[0];
  }

  /** The signature of a text that starts with a small letter, with or without a promotion. */
  lemma PromotedBody(body: string, promo: string)
    requires Lacks(body, '=') && body != "" && !('A' <= body[0] <= 'Z')
    requires promo == "" || (|promo| == 2 && promo[0] == '=')
    ensures BareSignature(body + promo) == CaptureOf(body) + DestOf(Without(body, 'x')) + promo
  {
    var t := body + promo;
    CutPromotion(body, promo);
    assert t[0] == body[0] && PieceOf(t) == "";
    assert body[0..] == body;
    assert "" + CaptureOf(body) == CaptureOf(body);
  }

  lemma CutPromotion(body: string, promo: string)
    requires Lacks(body, '=') && (promo == "" || (|promo| == 2 && promo[0] == '='))
    ensures BodyOf(body + promo) == body && PromotionOf(body + promo) == promo
  {
    var t := body + promo;
    PromotionMark(body, promo);
    if promo == "" {
      assert t == body;
    } else {
      assert t[..|body|] == body && t[|body| + 1] == promo[1];
      assert promo == ['=', promo[1]];
    }
  }

  lemma SignatureOfEncoded(r: Rules, p: Position, m: Move)
    requires Lawful(r) && m in r.valid(p)
    ensures Signature(Encode(r, p, m)) == MoveSignature(r.san(p, m))
    ensures Signature(Encode(r, p, m)) != ""
  {
    EncodeSolid(r, p, m);
    ResolveEncoded(r, p, m);
    TrimSolid(Encode(r, p, m));
    assert WellFormed(r.san(p, m));
    CoreSignature(r.san(p, m));
  }

  lemma CoreSignature(n: San)
    requires WellFormed(n)
    ensures MoveSignature(n) != ""
    ensures MoveSignature(n)
      == if Core(n) == "O-O" || Core(n) == "O-O-O" then Core(n) else BareSignature(Core(n))
  {
    if n.Piece? {
      assert Core(n)[0] == n.letter != 'O';
      PieceSignature(n);
    } else if n.Pawn? {
      assert Core(n)[0] != 'O' by { if n.from != "" { assert Core(n)[0] == n.from[0]; } }
      PawnSignature(n);
    }
  }

  // ---------- castling and the order of preference ----------

  predicate OnlyMarks(marks: string) {
    forall i :: 0 <= i < |marks| ==> marks[i] == '+' || marks[i] == '#'
  }

  lemma {:induction false} MarksTrimmed(core: string, marks: string)
    requires core != "" && core[|core| - 1] != '+' && core[|core| - 1] != '#' && OnlyMarks(marks)
    ensures TrimMarks(core + marks) == core
    decreases |marks|
  {
    if marks == "" {
      assert core + marks == core;
    } else {
      assert (core + marks)[..|core + marks| - 1] == core + marks[..|marks| - 1];
      MarksTrimmed(core, marks[..|marks| - 1]);
    }
  }

  predicate IsCastlingText(core: string, long: bool) {
    if long then core == "0-0-0" || core == "O-O-O" || core == "o-o-o"
    else core == "0-0" || core == "O-O" || core == "o-o"
  }

  lemma CastlingNormal(core: string, marks: string, long: bool)
    requires IsCastlingText(core, long) && OnlyMarks(marks)
    ensures NormalizeSan(core + marks) == Core(Castle(long)) + marks
  {
    var t := core + marks;
    CastlingEnds(core, long);
    assert Solid(t) by { if marks != "" { assert t[|t| - 1] == marks[|marks| - 1]; } else { assert t == core; } }
    TrimSolid(t);
    MarksTrimmed(core, marks);
    assert StripCheck(t) == core && t[|core|..] == marks;
    CastlingApart(core, long);
  }

  lemma CastlingEnds(core: string, long: bool)
    requires IsCastlingText(core, long)
    ensures core != "" && !IsSpace(core[0]) && !IsSpace(core[|core| - 1])
    ensures core[|core| - 1] != '+' && core[|core| - 1] != '#'
  {
  }

  lemma CastlingApart(core: string, long: bool)
    requires IsCastlingText(core, long)
    ensures |core| == if long then 5 else 3
  {
  }

  /** Castling may be written with zeros, capitals or small letters, with any check mark. */
  lemma CastlingSpellings(r: Rules, p: Position, core: string, marks: string, long: bool)
    requires IsCastlingText(core, long) && OnlyMarks(marks)
    ensures Resolve(r, p, core + marks) == Resolve(r, p, Core(Castle(long)) + marks)
  {
    CastlingNormal(core, marks, long);
    CastlingNormal(Core(Castle(long)), marks, long);
  }

  /** A legal castling is found from every spelling with its own check mark. */
  lemma CastlingRead(r: Rules, p: Position, m: Move, core: string, long: bool)
    requires Lawful(r) && m in r.valid(p) && r.san(p, m) == Castle(long) && IsCastlingText(core, long)
    ensures Resolve(r, p, core + MarkText(r.mark(p, m))) == Ok((m, Encode(r, p, m)))
  {
    var marks := MarkText(r.mark(p, m));
    assert OnlyMarks(marks);
    CastlingSpellings(r, p, core, marks, long);
    assert Core(Castle(long)) + marks == Encode(r, p, m);
    ResolveEncoded(r, p, m);
  }

  /** The legal moves that are spelled like norm, but for check marks. */
  function Spelled(r: Rules, p: Position, norm: string): set<int> {
    set i | 0 <= i < |r.valid(p)| && Core(r.san(p, r.valid(p)[i])) == StripCheck(norm)
  }

  /** The legal moves of the same piece, capture, destination and promotion. */
  function Signed(r: Rules, p: Position, norm: string): set<int> {
    set i | 0 <= i < |r.valid(p)| && MoveSignature(r.san(p, r.valid(p)[i])) == Signature(norm)
  }

  lemma SpelledLike(r: Rules, p: Position, norm: string, m: Move)
    requires Lawful(r) && m in r.valid(p)
    ensures SameSpelling(r, p, norm, m) <==> Core(r.san(p, m)) == StripCheck(norm)
    ensures SameSignature(r, p, norm, m) <==> MoveSignature(r.san(p, m)) == Signature(norm)
  {
    EncodeSolid(r, p, m);
    TrimSolid(Encode(r, p, m));
    SignatureOfEncoded(r, p, m);
  }

  /** As many pass a test as there are places where they do. */
  lemma PlacesCount(valid: seq<Move>, keep: Move -> bool, places: set<int>)
    requires forall i :: i in places <==> 0 <= i < |valid| && keep(valid[i])
    ensures |Filter(valid, keep)| == |places|
  {
    FilterSize(valid, keep);
    assert Places(valid, keep) == places;
  }

  lemma SpelledCount(r: Rules, p: Position, norm: string)
    requires Lawful(r)
    ensures |ExactMoves(r, p, norm, r.valid(p))| == |Spelled(r, p, norm)|
  {
    var valid, keep := r.valid(p), (m: Move) => SameSpelling(r, p, norm, m);
    forall i ensures i in Spelled(r, p, norm) <==> 0 <= i < |valid| && keep(valid[i]) {
      if 0 <= i < |valid| { SpelledLike(r, p, norm, valid[i]); }
    }
    PlacesCount(valid, keep, Spelled(r, p, norm));
  }

  lemma SignedCount(r: Rules, p: Position, norm: string)
    requires Lawful(r)
    ensures |MatchingMoves(r, p, norm, r.valid(p))| == |Signed(r, p, norm)|
  {
    var valid, keep := r.valid(p), (m: Move) => SameSignature(r, p, norm, m);
    forall i ensures i in Signed(r, p, norm) <==> 0 <= i < |valid| && keep(valid[i]) {
      if 0 <= i < |valid| { SpelledLike(r, p, norm, valid[i]); }
    }
    PlacesCount(valid, keep, Signed(r, p, norm));
  }

  lemma Distinct(r: Rules, p: Position, i: nat, j: nat)
    requires Lawful(r) && i < |r.valid(p)| && j < |r.valid(p)|
    requires Core(r.san(p, r.valid(p)[i])) == Core(r.san(p, r.valid(p)[j]))
    ensures i == j
  {
  }

  /** At most one legal move is spelled like a text. */
  lemma OneSpelled(r: Rules, p: Position, norm: string)
    requires Lawful(r)
    ensures |Spelled(r, p, norm)| <= 1
  {
    var all := Spelled(r, p, norm);
    if all != {} {
      var i :| i in all;
      forall j | j in all ensures j == i { Distinct(r, p, i, j); }
      assert all == {i};
    }
  }

  lemma AmongDecides(r: Rules, p: Position, norm: string, exact: seq<Move>, matches: seq<Move>)
    ensures var res := ResolveAmong(r, p, norm, exact, matches);
      if norm == "" then res == Err(IllegalMove)
      else if r.decode(p, norm).Some? then res.Ok? && res.value.0 == r.decode(p, norm).value
      else if |exact| == 1 then res.Ok? && res.value.0 == exact[0]
      else if |matches| == 1 then res.Ok? && res.value.0 == matches[0]
      else res == Err(if |matches| > 1 then AmbiguousMove else IllegalMove)
  {
  }

  /** The order of preference: what the library decodes; then the legal move that is spelled the same,
      however many share its signature; then the only one of the same signature; several are ambiguous
      and none is illegal. */
  lemma ResolveDecides(r: Rules, p: Position, san: string)
    requires Lawful(r)
    ensures var norm := NormalizeSan(san);
      var res := Resolve(r, p, san);
      if norm == "" then res == Err(IllegalMove)
      else if r.decode(p, norm).Some? then res.Ok? && res.value.0 == r.decode(p, norm).value
      else if Spelled(r, p, norm) != {} then
        res.Ok? && exists i :: i in Spelled(r, p, norm) && res.value.0 == r.valid(p)[i]
      else if |Signed(r, p, norm)| == 1 then
        res.Ok? && exists i :: i in Signed(r, p, norm) && res.value.0 == r.valid(p)[i]
      else res == Err(if |Signed(r, p, norm)| > 1 then AmbiguousMove else IllegalMove)
  {
    var norm := NormalizeSan(san);
    var exact, matches := ExactMoves(r, p, norm, r.valid(p)), MatchingMoves(r, p, norm, r.valid(p));
    SpelledCount(r, p, norm);
    SignedCount(r, p, norm);
    OneSpelled(r, p, norm);
    AmongDecides(r, p, norm, exact, matches);
    if exact != [] { PlaceOfExact(r, p, norm, exact[0]); }
    if matches != [] { PlaceOfMatch(r, p, norm, matches[0]); }
  }

  lemma PlaceOfExact(r: Rules, p: Position, norm: string, m: Move)
    requires Lawful(r) && m in ExactMoves(r, p, norm, r.valid(p))
    ensures exists i :: i in Spelled(r, p, norm) && m == r.valid(p)[i]
  {
    var i :| 0 <= i < |r.valid(p)| && r.valid(p)[i] == m;
    SpelledLike(r, p, norm, m);
    assert i in Spelled(r, p, norm);
  }

  lemma PlaceOfMatch(r: Rules, p: Position, norm: string, m: Move)
    requires Lawful(r) && m in MatchingMoves(r, p, norm, r.valid(p))
    ensures exists i :: i in Signed(r, p, norm) && m == r.valid(p)[i]
  {
    var i :| 0 <= i < |r.valid(p)| && r.valid(p)[i] == m;
    SpelledLike(r, p, norm, m);
    assert i in Signed(r, p, norm);
  }

  // ---------- replaying ----------

  /** What a move text makes of a position. */
  type Player = (Position, string) -> Result<Position>

  function NextOf(r: Rules): Player {
    (p: Position, san: string) => Next(r, p, san)
  }

  /** The positions reached by playing moves for as long as they resolve, from p on. */
  function WalkBy(next: Player, p: Position, sans: seq<string>): (w: seq<Position>)
    ensures 1 <= |w| <= |sans| + 1 && w[0] == p
    decreases |sans|
  {
    if sans == [] || next(p, sans[0]).Err? then [p]
    else [p] + WalkBy(next, next(p, sans[0]).value, sans[1..])
  }

  function Walk(r: Rules, p: Position, sans: seq<string>): (w: seq<Position>)
    ensures 1 <= |w| <= |sans| + 1 && w[0] == p
  {
    WalkBy(NextOf(r), p, sans)
  }

  lemma WalkOn(r: Rules, p: Position, sans: seq<string>, q: Position)
    requires sans != [] && Next(r, p, sans[0]) == Ok(q)
    ensures Walk(r, p, sans) == [p] + Walk(r, q, sans[1..])
  {
  }

  /** The i-th move leads from the i-th position to the next. */
  ghost predicate Leads(next: Player, sans: seq<string>, w: seq<Position>, i: nat)
    requires i < |sans| && i + 1 < |w|
  {
    next(w[i], sans[i]) == Ok(w[i + 1])
  }

  /** The positions of w arise from p by playing the first |w| - 1 moves. */
  ghost predicate Plays(next: Player, p: Position, sans: seq<string>, w: seq<Position>) {
    && 1 <= |w| <= |sans| + 1 && w[0] == p
    && (forall i :: 0 <= i < |w| - 1 ==> Leads(next, sans, w, i))
  }

  lemma PlaysOn(next: Player, p: Position, sans: seq<string>, w: seq<Position>, q: Position)
    requires Plays(next, p, sans, w) && |w| <= |sans|
    requires next(w[|w| - 1], sans[|w| - 1]) == Ok(q)
    ensures Plays(next, p, sans, w + [q])
  {
    forall i | 0 <= i < |w| ensures Leads(next, sans, w + [q], i) {
      if i < |w| - 1 { assert Leads(next, sans, w, i); }
    }
  }

  /** What makes a list of positions the longest playable beginning of a list of moves. */
  ghost predicate IsLongestLine(next: Player, p: Position, sans: seq<string>, w: seq<Position>) {
    && Plays(next, p, sans, w)
    && (|w| <= |sans| ==> next(w[|w| - 1], sans[|w| - 1]).Err?)
  }

  lemma {:induction false} WalkIsLongestLine(next: Player, p: Position, sans: seq<string>)
    ensures IsLongestLine(next, p, sans, WalkBy(next, p, sans))
    decreases |sans|
  {
    if sans == [] {
    } else if next(p, sans[0]).Ok? {
      var q := next(p, sans[0]).value;
      WalkIsLongestLine(next, q, sans[1..]);
      var w, tail := WalkBy(next, p, sans), WalkBy(next, q, sans[1..]);
      assert w[1..] == tail;
      forall i | 0 <= i < |w| - 1 ensures Leads(next, sans, w, i) {
        if i > 0 { assert Leads(next, sans[1..], tail, i - 1); }
      }
      if |w| <= |sans| { assert sans[1..][|tail| - 1] == sans[|w| - 1]; }
    }
  }

  lemma {:induction false} LongestLineUnique(next: Player, p: Position, sans: seq<string>, w: seq<Position>)
    requires IsLongestLine(next, p, sans, w)
    ensures w == WalkBy(next, p, sans)
    decreases |sans|
  {
    if |w| > 1 {
      LineTail(next, p, sans, w);
      LongestLineUnique(next, w[1], sans[1..], w[1..]);
      assert w == [p] + w[1..];
    } else {
      assert w == [p];
      if sans != [] { assert next(w[0], sans[0]).Err?; }
    }
  }

  lemma LineTail(next: Player, p: Position, sans: seq<string>, w: seq<Position>)
    requires IsLongestLine(next, p, sans, w) && |w| > 1
    ensures sans != [] && next(p, sans[0]) == Ok(w[1])
    ensures IsLongestLine(next, w[1], sans[1..], w[1..])
  {
    assert Leads(next, sans, w, 0);
    var s, v := sans[1..], w[1..];
    forall i | 0 <= i < |v| - 1 ensures Leads(next, s, v, i) { assert Leads(next, sans, w, i + 1); }
    if |v| <= |s| { assert s[|v| - 1] == sans[|w| - 1]; }
  }

  /** The walk of a beginning of the moves is the beginning of the walk. */
  lemma {:induction false} WalkPrefix(next: Player, p: Position, sans: seq<string>, k: nat)
    requires k < |WalkBy(next, p, sans)|
    ensures WalkBy(next, p, sans[..k]) == WalkBy(next, p, sans)[..k + 1]
    decreases k
  {
    if k == 0 {
    } else {
      var q := next(p, sans[0]).value;
      assert sans[..k][0] == sans[0] && sans[..k][1..] == sans[1..][..k - 1];
      WalkPrefix(next, q, sans[1..], k - 1);
    }
  }

  /** A walk does not pass a move that resolves nowhere. */
  lemma {:induction false} WalkStopsAt(next: Player, p: Position, sans: seq<string>, k: nat)
    requires k < |sans| && forall q: Position :: next(q, sans[k]).Err?
    ensures |WalkBy(next, p, sans)| <= k + 1
    decreases k
  {
    if k == 0 {
    } else if next(p, sans[0]).Ok? {
      WalkStopsAt(next, next(p, sans[0]).value, sans[1..], k - 1);
    }
  }

  /** Moves that resolve alike in every position walk alike. */
  lemma {:induction false} WalkAlike(next: Player, p: Position, a: seq<string>, b: seq<string>)
    requires |a| == |b|
    requires forall k, q: Position :: 0 <= k < |a| ==> next(q, a[k]) == next(q, b[k])
    ensures WalkBy(next, p, a) == WalkBy(next, p, b)
    decreases |a|
  {
    if a == [] {
    } else {
      assert next(p, a[0]) == next(p, b[0]);
      if next(p, a[0]).Ok? {
        forall k, q: Position | 0 <= k < |a[1..]| ensures next(q, a[1..][k]) == next(q, b[1..][k]) {
          assert next(q, a[k + 1]) == next(q, b[k + 1]);
        }
        WalkAlike(next, next(p, a[0]).value, a[1..], b[1..]);
      }
    }
  }

  function Fens(r: Rules, ps: seq<Position>): (fens: seq<string>)
    ensures |fens| == |ps|
    ensures forall i :: 0 <= i < |ps| ==> fens[i] == r.write(ps[i])
  {
    seq(|ps|, i requires 0 <= i < |ps| => r.write(ps[i]))
  }

  datatype Replay = Replay(positions: seq<string>, error: Option<Error>, failedAt: int)

  /** What ApplyMoves promises: the FENs after each move of the longest line, and where and why
      it ended. */
  ghost predicate IsReplay(r: Rules, start: string, sans: seq<string>, a: Replay) {
    match ReadFen(r, start)
    case None => a == Replay([], Some(BadFen), 0)
    case Some(p) =>
      var w := Walk(r, p, sans);
      && a.positions == Fens(r, w[1..])
      && (if |w| == |sans| + 1 then a.error == None && a.failedAt == -1
          else
            && a.failedAt == |w| - 1
            && Next(r, w[|w| - 1], sans[|w| - 1]).Err?
            && a.error == Some(Next(r, w[|w| - 1], sans[|w| - 1]).error))
  }

  method ApplyMoves(r: Rules, start: string, sans: seq<string>)
    returns (positions: seq<string>, error: Option<Error>, failedAt: int)
    ensures IsReplay(r, start, sans, Replay(positions, error, failedAt))
  {
    var first := ReadFen(r, start);
    if first.None? { return [], Some(BadFen), 0; }
    var pos := first.value;
    ghost var next, line := NextOf(r), [pos];
    positions := [];
    for i := 0 to |sans|
      invariant Plays(next, first.value, sans, line) && |line| == i + 1 && line[i] == pos
      invariant positions == Fens(r, line[1..])
    {
      var res := ResolveMove(r, pos, sans[i]);
      if res.Err? {
        LongestLineUnique(next, first.value, sans, line);
        return positions, Some(res.error), i;
      }
      PlaysOn(next, first.value, sans, line, r.update(pos, res.value.0));
      pos := r.update(pos, res.value.0);
      line := line + [pos];
      positions := positions + [r.write(pos)];
    }
    LongestLineUnique(next, first.value, sans, line);
    return positions, None, -1;
  }
}
