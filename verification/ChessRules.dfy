/** The rules of chess as the program sees them through its chess libraries. The libraries
    themselves are not modelled: `Rules` bundles the calls the program makes, and `Lawful` lists
    what it relies on. `Toy` is a lawful instance. */
module ChessRules {
  import opened Text
  import BoardField

  /** Positions and moves are opaque values of the library; a number names each. */
  type Position = nat
  type Move = nat

  // ---------- algebraic notation ----------

  /** The notation of a move, without its check mark. `from` holds the origin file and rank
      characters that the move needs to be told apart. */
  datatype San =
    | Castle(long: bool)
    | Piece(letter: char, from: string, capture: bool, file: char, rank: char)
    | Pawn(from: string, file: char, rank: char, promo: Option<char>)

  datatype Mark = Quiet | Check | Mate

  predicate IsPieceLetter(c: char) { c == 'K' || c == 'Q' || c == 'R' || c == 'B' || c == 'N' }
  predicate IsFile(c: char) { 'a' <= c <= 'h' }
  predicate IsRank(c: char) { '1' <= c <= '8' }

  predicate WellFormed(m: San) {
    match m
    case Castle(_) => true
    case Piece(letter, from, _, file, rank) =>
      && IsPieceLetter(letter) && IsFile(file) && IsRank(rank)
      && |from| <= 2 && forall i :: 0 <= i < |from| ==> IsFile(from[i]) || IsRank(from[i])
    case Pawn(from, file, rank, promo) =>
      && IsFile(file) && IsRank(rank)
      && |from| <= 1 && (forall i :: 0 <= i < |from| ==> IsFile(from[i]))
      && (promo.Some? ==> IsPieceLetter(promo.value) && promo.value != 'K')
  }

  function Core(m: San): string {
    match m
    case Castle(long) => if long then "O-O-O" else "O-O"
    case Piece(letter, from, capture, file, rank) =>
      [letter] + from + (if capture then "x" else "") + [file, rank]
    case Pawn(from, file, rank, promo) =>
      (if from == "" then "" else from + "x") + [file, rank]
      + (if promo.Some? then ['=', promo.value] else "")
  }

  function MarkText(k: Mark): string {
    match k case Quiet => "" case Check => "+" case Mate => "#"
  }

  // ---------- the library calls ----------

  datatype Rules = Rules(
    read: string -> Option<Position>,       // reads a FEN
    write: Position -> string,              // writes a FEN
    blackToMove: Position -> bool,
    valid: Position -> seq<Move>,            // the legal moves, in the library's order
    san: (Position, Move) -> San,
    mark: (Position, Move) -> Mark,
    decode: (Position, string) -> Option<Move>,
    update: (Position, Move) -> Position)

  function Encode(r: Rules, p: Position, m: Move): string {
    Core(r.san(p, m)) + MarkText(r.mark(p, m))
  }

  /** The active-colour field of a FEN is "b". */
  predicate BlackField(fen: string) {
    var f := Fields(fen);
    |f| >= 2 && f[1] == "b"
  }

  // ---------- laws ----------

  ghost predicate FenLaws(r: Rules) {
    && (forall p: Position :: r.write(p) != "" && r.read(r.write(p)) == Some(p))
    && (forall s: string :: r.read(s).Some? ==> BlackField(s) == r.blackToMove(r.read(s).value))
  }

  ghost predicate MoveLaws(r: Rules) {
    && (forall p: Position, m: Move :: m in r.valid(p) ==> WellFormed(r.san(p, m)))
    && (forall p: Position, m: Move :: m in r.valid(p) ==> r.blackToMove(r.update(p, m)) == !r.blackToMove(p))
    && (forall p: Position, i: nat, j: nat :: i < j < |r.valid(p)| ==>
          Core(r.san(p, r.valid(p)[i])) != Core(r.san(p, r.valid(p)[j])))
  }

  ghost predicate DecodeLaws(r: Rules) {
    && (forall p: Position, m: Move :: m in r.valid(p) ==> r.decode(p, Encode(r, p, m)) == Some(m))
    && (forall p: Position, s: string :: r.decode(p, s).Some? ==> r.decode(p, s).value in r.valid(p))
    && (forall p: Position :: r.decode(p, "?") == None)
  }

  /** The board field of a FEN: what stands before the first space. */
  function BoardText(fen: string): string {
    Split(fen, ' ')[0]
  }

  /** Reading and writing a FEN keeps a board field that is in the form the encoders give it. */
  ghost predicate BoardLaw(r: Rules) {
    forall s: string, cells: string ::
      r.read(s).Some? && IsBoard(cells) && BoardText(s) == BoardField.FieldOf(cells)
      ==> BoardText(r.write(r.read(s).value)) == BoardField.FieldOf(cells)
  }

  ghost predicate IsBoard(cells: string) {
    |cells| == 64 && BoardField.BoardCells(cells)
  }

  /** White's move number, as it is written. */
  function NumberText(n: int): string {
    FormatInt(n) + "."
  }

  /** A negative number is no move to the library. */
  ghost predicate NumberLaw(r: Rules) {
    forall p: Position, n: int :: n < 0 ==> r.decode(p, NumberText(n)) == None
  }

  /** Determinism is built in: every call is a function of its arguments. */
  ghost predicate Lawful(r: Rules) {
    FenLaws(r) && MoveLaws(r) && DecodeLaws(r) && NumberLaw(r)
  }

  // ---------- a lawful instance ----------

  const TOY_BOARD: string := "4k3/8/8/8/" + "8/8/8/4K3"

  /** Two knights reach the same square in every position; positions count the plies played. */
  function ToyPrint(p: Position): string {
    var colour := if p % 2 == 0 then "w" else "b";
    TOY_BOARD + " " + (colour + " " + ("-" + " " + ("-" + " " + ("0" + " " + Decimal(p / 2 + 1)))))
  }

  function ToyParse(s: string): Option<Position> {
    var f := Fields(s);
    if |f| == 6 && AllDigits(f[5]) && Value(f[5]) >= 1 then
      var p := 2 * (Value(f[5]) - 1) + (if f[1] == "b" then 1 else 0);
      if ToyPrint(p) == s then Some(p) else None
    else None
  }

  function ToySan(p: Position, m: Move): San {
    Piece('N', if m == 0 then "b" else "f", false, 'd', '2')
  }

  function ToyDecode(p: Position, s: string): Option<Move> {
    if s == "Nbd2" then Some(0) else if s == "Nfd2" then Some(1) else None
  }

  function Toy(): Rules {
    Rules(ToyParse, ToyPrint, p => p % 2 == 1, p => [0, 1], ToySan,
          (p, m) => Quiet, ToyDecode, (p, m) => p + 1)
  }

  lemma ToyFields(p: Position)
    ensures Fields(ToyPrint(p)) == [TOY_BOARD, if p % 2 == 0 then "w" else "b", "-", "-", "0", Decimal(p / 2 + 1)]
  {
    var colour, number := if p % 2 == 0 then "w" else "b", Decimal(p / 2 + 1);
    assert NoSpace("4k3/8/8/8/") && NoSpace("8/8/8/4K3");
    assert NoSpace(TOY_BOARD) && NoSpace(number);
    SixFields(TOY_BOARD, colour, "-", "-", "0", number);
  }

  lemma ToyReadsBack(p: Position)
    ensures ToyPrint(p) != "" && ToyParse(ToyPrint(p)) == Some(p)
  {
    ToyFields(p);
    ValueDecimal(p / 2 + 1);
    assert 2 * (p / 2) + (if p % 2 == 0 then 0 else 1) == p;
  }

  lemma ToyColour(s: string)
    ensures ToyParse(s).Some? ==> BlackField(s) == (ToyParse(s).value % 2 == 1)
  {
    if ToyParse(s).Some? {
      var p := ToyParse(s).value;
      assert s == ToyPrint(p);
      ToyFields(p);
    }
  }

  lemma ToyCore(p: Position)
    ensures Core(ToySan(p, 0)) == "Nbd2" && Core(ToySan(p, 1)) == "Nfd2"
  {
  }

  lemma ToyDistinct(p: Position, i: nat, j: nat)
    requires i < j < 2
    ensures Core(ToySan(p, [0, 1][i])) != Core(ToySan(p, [0, 1][j]))
  {
    ToyCore(p);
    assert "Nbd2"[1] != "Nfd2"[1];
    assert i == 0 && j == 1;
  }

  lemma ToyMoves()
    ensures MoveLaws(Toy())
  {
    var r := Toy();
    ToyFormed();
    forall p: Position, i: nat, j: nat | i < j < |r.valid(p)|
      ensures Core(r.san(p, r.valid(p)[i])) != Core(r.san(p, r.valid(p)[j]))
    {
      ToyDistinct(p, i, j);
    }
  }

  lemma ToyFormed()
    ensures forall p: Position, m: Move :: m in Toy().valid(p) ==> WellFormed(Toy().san(p, m))
    ensures forall p: Position, m: Move :: m in Toy().valid(p) ==>
      Toy().blackToMove(Toy().update(p, m)) == !Toy().blackToMove(p)
  {
  }

  lemma ToyDecodes()
    ensures DecodeLaws(Toy())
  {
    var r := Toy();
    forall p: Position, m: Move | m in r.valid(p) ensures r.decode(p, Encode(r, p, m)) == Some(m) {
      ToyCore(p);
      assert m == 0 || m == 1;
      assert Encode(r, p, m) == Core(ToySan(p, m)) + "" == Core(ToySan(p, m));
      assert "Nbd2"[1] != "Nfd2"[1];
    }
    assert "?"[0] != "Nbd2"[0] && "?"[0] != "Nfd2"[0];
  }

  lemma ToyNumbers()
    ensures NumberLaw(Toy())
  {
    forall p: Position, n: int | n < 0 ensures Toy().decode(p, NumberText(n)) == None {
      assert NumberText(n)[0] == '-' && "Nbd2"[0] == "Nfd2"[0] == 'N';
    }
  }

  lemma ToyKeepsBoard()
    ensures BoardLaw(Toy())
  {
    forall s: string | ToyParse(s).Some? ensures ToyPrint(ToyParse(s).value) == s {}
  }

  /** The laws are not vacuous. */
  lemma ToyLawful()
    ensures Lawful(Toy())
  {
    forall p: Position ensures ToyPrint(p) != "" && ToyParse(ToyPrint(p)) == Some(p) { ToyReadsBack(p); }
    forall s: string ensures ToyParse(s).Some? ==> BlackField(s) == (ToyParse(s).value % 2 == 1) {
      ToyColour(s);
    }
    assert FenLaws(Toy());
    ToyMoves();
    ToyDecodes();
    ToyNumbers();
  }

  // ---------- an instance with one legal move ----------

  /** The same positions, but m is the only legal move everywhere, and decoded from its own spelling
      only. */
  function Lone(m: San): Rules {
    Toy().(valid := p => [0], san := (p, i) => m, decode := (p, s) => if s == Core(m) then Some(0) else None)
  }

  lemma LoneStart(m: San)
    requires WellFormed(m)
    ensures Core(m) != "" && Core(m)[0] != '?' && Core(m)[0] != '-'
  {
    if m.Pawn? { assert Core(m)[0] == if m.from == "" then m.file else m.from[0]; }
  }

  lemma LoneLawful(m: San)
    requires WellFormed(m)
    ensures Lawful(Lone(m))
  {
    var r := Lone(m);
    ToyLawful();
    LoneStart(m);
    assert FenLaws(r) by { assert FenLaws(Toy()); }
    assert MoveLaws(r);
    forall p: Position, i: Move | i in r.valid(p) ensures r.decode(p, Encode(r, p, i)) == Some(i) {
      assert Encode(r, p, i) == Core(m) + "" == Core(m);
    }
    assert DecodeLaws(r);
    forall p: Position, n: int | n < 0 ensures r.decode(p, NumberText(n)) == None {
      assert NumberText(n)[0] == '-';
    }
  }
}
