/** Which texts of a truncated model output become tokens, and as what
    (internal/recognition/ollama.go). */
module SalvagedMoves {
  import opened Text
  import opened Salvage

  const MOVES_KEY: string := "\"moves\""

  /** The first place where a text stands. */
  ghost predicate FirstAt(s: string, what: string, k: nat) {
    k <= |s| && what <= s[k..] && forall j :: 0 <= j < k ==> !(what <= s[j..])
  }

  /** Where scanning begins: at the key of the moves array, or at the start where it is not named. */
  ghost predicate ScanBegins(raw: string, k: nat) {
    if Occurs(raw, MOVES_KEY) then FirstAt(raw, MOVES_KEY, k) else k == 0
  }

  /** A text of one side in the object from start to end. */
  datatype Origin = Origin(start: nat, end: nat, black: bool)

  /** A leaf object that decodes to a move with a text for this side. */
  ghost predicate IsSource(raw: string, decode: string -> Option<ModelMove>, o: Origin) {
    && IsLeaf(raw, o.start, o.end)
    && decode(raw[o.start..o.end + 1]).Some?
    && SideText(decode(raw[o.start..o.end + 1]).value, o.black) != ""
  }

  function SideText(m: ModelMove, black: bool): string {
    if black then m.black else m.white
  }

  /** Reading order: by object, White first. */
  predicate Earlier(a: Origin, b: Origin) {
    a.end < b.start || (a.start == b.start && a.end == b.end && !a.black && b.black)
  }

  /** Every token comes from one text at or behind k, of the side that it names; every such text has its
      token; and the tokens are numbered in reading order. */
  ghost predicate IsSalvage(
    raw: string, decode: string -> Option<ModelMove>, k: nat, from: seq<Origin>, out: seq<Token>)
  {
    && |from| == |out|
    && (forall o :: o in from <==> k <= o.start && IsSource(raw, decode, o))
    && (forall i, j :: 0 <= i < j < |from| ==> Earlier(from[i], from[j]))
    && forall n :: 0 <= n < |out| ==> IsTokenOf(raw, decode, from[n], n, out[n])
  }

  /** The n-th token, counted from one, with the side and the text of its source. */
  ghost predicate IsTokenOf(raw: string, decode: string -> Option<ModelMove>, o: Origin, n: nat, t: Token) {
    && IsSource(raw, decode, o)
    && t == Token(n + 1, if o.black then "black" else "white",
                  SideText(decode(raw[o.start..o.end + 1]).value, o.black), 0.5)
  }

  // ---------- the texts of the leaves ----------

  function OriginsOf(decode: string -> Option<ModelMove>, raw: string, r: Range): seq<Origin> {
    match decode(TextOf(raw, r))
    case None => []
    case Some(m) =>
      (if m.white != "" then [Origin(r.start, r.end, false)] else [])
      + (if m.black != "" then [Origin(r.start, r.end, true)] else [])
  }

  function Origins(decode: string -> Option<ModelMove>, raw: string, ranges: seq<Range>): seq<Origin> {
    if ranges == [] then []
    else Origins(decode, raw, ranges[..|ranges| - 1]) + OriginsOf(decode, raw, ranges[|ranges| - 1])
  }

  function Labelled(decode: string -> Option<ModelMove>, raw: string, o: Origin): (string, string) {
    match decode(TextOf(raw, Range(o.start, o.end)))
    case None => ("", "")
    case Some(m) => (if o.black then "black" else "white", SideText(m, o.black))
  }

  function LabelledAll(decode: string -> Option<ModelMove>, raw: string, from: seq<Origin>): seq<(string, string)> {
    seq(|from|, n requires 0 <= n < |from| => Labelled(decode, raw, from[n]))
  }

  lemma LabelledAppend(decode: string -> Option<ModelMove>, raw: string, a: seq<Origin>, b: seq<Origin>)
    ensures LabelledAll(decode, raw, a + b) == LabelledAll(decode, raw, a) + LabelledAll(decode, raw, b)
  {
  }

  /** The texts of one decoded object. */
  function RowOf(m: Option<ModelMove>): seq<(string, string)> {
    match m
    case None => []
    case Some(m) =>
      (if m.white != "" then [("white", m.white)] else []) + (if m.black != "" then [("black", m.black)] else [])
  }

  /** The rows that an object gives. */
  function Kept(m: Option<ModelMove>): seq<ModelMove> {
    if RowOf(m) != [] then [m.value] else []
  }

  lemma RowAdded(rows: seq<ModelMove>, m: Option<ModelMove>)
    ensures RowTexts(rows + Kept(m)) == RowTexts(rows) + RowOf(m)
  {
    if RowOf(m) == [] {
      assert rows + Kept(m) == rows;
    } else {
      assert (rows + [m.value])[..|rows|] == rows && (rows + [m.value])[|rows|] == m.value;
    }
  }

  lemma OneLabelled(decode: string -> Option<ModelMove>, raw: string, r: Range)
    ensures LabelledAll(decode, raw, OriginsOf(decode, raw, r))
      == RowOf(decode(TextOf(raw, r)))
  {
    assert Range(r.start, r.end) == r;
  }

  lemma {:induction false} TextsLabelled(decode: string -> Option<ModelMove>, raw: string, ranges: seq<Range>)
    ensures RowTexts(Decoded(decode, RangeTexts(raw, ranges)))
      == LabelledAll(decode, raw, Origins(decode, raw, ranges))
  {
    if ranges == [] {
    } else {
      var init, r := ranges[..|ranges| - 1], ranges[|ranges| - 1];
      TextsLabelled(decode, raw, init);
      OneLabelled(decode, raw, r);
      LabelledAppend(decode, raw, Origins(decode, raw, init), OriginsOf(decode, raw, r));
      assert RangeTexts(raw, ranges)[..|ranges| - 1] == RangeTexts(raw, init);
      LastDecoded(decode, RangeTexts(raw, init), RangeTexts(raw, ranges), TextOf(raw, r));
      RowAdded(Decoded(decode, RangeTexts(raw, init)), decode(TextOf(raw, r)));
    }
  }

  lemma LastDecoded(decode: string -> Option<ModelMove>, init: seq<string>, objs: seq<string>, last: string)
    requires objs != [] && objs[..|objs| - 1] == init && objs[|objs| - 1] == last
    ensures Decoded(decode, objs) == Decoded(decode, init) + Kept(decode(last))
  {
  }

  // ---------- which they are, and in which order ----------

  ghost predicate Within(decode: string -> Option<ModelMove>, raw: string, o: Origin) {
    decode(TextOf(raw, Range(o.start, o.end))).Some?
    && SideText(decode(TextOf(raw, Range(o.start, o.end))).value, o.black) != ""
  }

  lemma OriginsOfExact(decode: string -> Option<ModelMove>, raw: string, r: Range)
    ensures forall o ::
      o in OriginsOf(decode, raw, r) <==> Range(o.start, o.end) == r && Within(decode, raw, o)
  {
  }

  lemma {:induction false} OriginsExact(decode: string -> Option<ModelMove>, raw: string, ranges: seq<Range>)
    ensures forall o ::
      o in Origins(decode, raw, ranges) <==> Range(o.start, o.end) in ranges && Within(decode, raw, o)
  {
    if ranges == [] {
    } else {
      var init, r := ranges[..|ranges| - 1], ranges[|ranges| - 1];
      OriginsExact(decode, raw, init);
      OriginsOfExact(decode, raw, r);
      assert ranges == init + [r];
    }
  }

  /** Ranges from left to right, without overlap. */
  ghost predicate Apart(ranges: seq<Range>) {
    forall i, j :: 0 <= i < j < |ranges| ==> ranges[i].end < ranges[j].start
  }

  ghost predicate InOrder(from: seq<Origin>) {
    forall i, j :: 0 <= i < j < |from| ==> Earlier(from[i], from[j])
  }

  lemma {:induction false} OriginsOrdered(decode: string -> Option<ModelMove>, raw: string, ranges: seq<Range>)
    requires Apart(ranges)
    ensures InOrder(Origins(decode, raw, ranges))
  {
    if ranges == [] {
    } else {
      var init, r := ranges[..|ranges| - 1], ranges[|ranges| - 1];
      OriginsOrdered(decode, raw, init);
      OriginsExact(decode, raw, init);
      OriginsOfExact(decode, raw, r);
      var a, b := Origins(decode, raw, init), OriginsOf(decode, raw, r);
      forall i, j | 0 <= i < |a| && 0 <= j < |b| ensures Earlier(a[i], b[j]) {
        assert a[i] in a && b[j] in b;
        var k :| 0 <= k < |init| && init[k] == Range(a[i].start, a[i].end);
        assert ranges[k].end < ranges[|ranges| - 1].start;
      }
      OrderedAppend(a, b);
    }
  }

  lemma OrderedAppend(a: seq<Origin>, b: seq<Origin>)
    requires InOrder(a) && InOrder(b)
    requires forall i, j :: 0 <= i < |a| && 0 <= j < |b| ==> Earlier(a[i], b[j])
    ensures InOrder(a + b)
  {
  }

  // ---------- the part that is scanned ----------

  lemma OccursLater(s: string, what: string)
    requires s != "" && !(what <= s)
    ensures Occurs(s, what) <==> Occurs(s[1..], what)
  {
    assert s[0..] == s;
    if Occurs(s, what) {
      var k :| 0 <= k <= |s| && what <= s[k..];
      assert s[1..][k - 1..] == s[k..];
    }
    if Occurs(s[1..], what) {
      var k :| 0 <= k <= |s[1..]| && what <= s[1..][k..];
      assert s[1..][k..] == s[k + 1..];
    }
  }

  lemma FirstLater(s: string, what: string, k: nat)
    requires s != "" && !(what <= s) && FirstAt(s[1..], what, k)
    ensures FirstAt(s, what, k + 1)
  {
    assert s[1..][k..] == s[k + 1..];
    forall j | 0 <= j < k + 1 ensures !(what <= s[j..]) {
      if j == 0 { assert s[0..] == s; } else { assert s[1..][j - 1..] == s[j..]; }
    }
  }

  lemma {:induction false} IndexIsFirst(s: string, what: string)
    ensures IndexOfText(s, what) >= 0 <==> Occurs(s, what)
    ensures IndexOfText(s, what) >= 0 ==> FirstAt(s, what, IndexOfText(s, what))
  {
    if what <= s {
      assert s[0..] == s;
    } else if s == "" {
      assert forall k :: 0 <= k <= |s| ==> s[k..] == s;
    } else {
      IndexIsFirst(s[1..], what);
      OccursLater(s, what);
      if Occurs(s, what) { FirstLater(s, what, IndexOfText(s[1..], what)); }
    }
  }

  /** Where scanning begins is determined, and the part that is scanned begins there. */
  lemma PartBegins(raw: string, k: nat)
    requires ScanBegins(raw, k)
    ensures k <= |raw| && MovesPart(raw) == raw[k..]
  {
    IndexIsFirst(raw, MOVES_KEY);
    if Occurs(raw, MOVES_KEY) {
      var i := IndexOfText(raw, MOVES_KEY);
      assert i == k;
    } else {
      assert raw[0..] == raw;
    }
  }

  function Moved(o: Origin, k: nat): Origin {
    Origin(o.start + k, o.end + k, o.black)
  }

  lemma LeafMoved(raw: string, k: nat, i: nat, j: nat)
    requires k <= |raw|
    ensures IsLeaf(raw[k..], i, j) <==> IsLeaf(raw, i + k, j + k)
    ensures IsLeaf(raw[k..], i, j) ==> TextOf(raw[k..], Range(i, j)) == raw[i + k..j + k + 1]
  {
    var part := raw[k..];
    if IsLeaf(part, i, j) {
      forall m | i + k < m < j + k ensures !IsBrace(raw[m]) { assert raw[m] == part[m - k]; }
    }
    if IsLeaf(raw, i + k, j + k) {
      forall m | i < m < j ensures !IsBrace(part[m]) { assert part[m] == raw[m + k]; }
    }
  }

  lemma SourceMoved(raw: string, decode: string -> Option<ModelMove>, k: nat, o: Origin)
    requires k <= |raw|
    ensures IsSource(raw, decode, Moved(o, k))
      <==> IsLeaf(raw[k..], o.start, o.end) && Within(decode, raw[k..], o)
  {
    LeafMoved(raw, k, o.start, o.end);
  }

  function MovedAll(from: seq<Origin>, k: nat): seq<Origin> {
    seq(|from|, n requires 0 <= n < |from| => Moved(from[n], k))
  }

  function PartOrigins(decode: string -> Option<ModelMove>, part: string): seq<Origin> {
    Origins(decode, part, Leaves(part, |part|))
  }

  /** The sources of a salvage. */
  function Sources(raw: string, decode: string -> Option<ModelMove>, k: nat): seq<Origin>
    requires k <= |raw|
  {
    MovedAll(PartOrigins(decode, raw[k..]), k)
  }

  lemma MovedIn(from: seq<Origin>, k: nat, o: Origin)
    ensures o in MovedAll(from, k)
      <==> k <= o.start && k <= o.end && Origin(o.start - k, o.end - k, o.black) in from
  {
    if k <= o.start && k <= o.end {
      var p := Origin(o.start - k, o.end - k, o.black);
      assert Moved(p, k) == o;
      if p in from {
        var n :| 0 <= n < |from| && from[n] == p;
        assert MovedAll(from, k)[n] == o;
      }
    }
    if o in MovedAll(from, k) {
      var n :| 0 <= n < |from| && MovedAll(from, k)[n] == o;
      assert from[n] == Origin(o.start - k, o.end - k, o.black);
    }
  }

  lemma PartExact(decode: string -> Option<ModelMove>, part: string, o: Origin)
    ensures o in PartOrigins(decode, part)
      <==> IsLeaf(part, o.start, o.end) && Within(decode, part, o)
  {
    LeavesExact(part, |part|);
    OriginsExact(decode, part, Leaves(part, |part|));
    assert Range(o.start, o.end) in Leaves(part, |part|) <==> IsLeaf(part, o.start, o.end) && o.end < |part|;
  }

  lemma SourcesExact(raw: string, decode: string -> Option<ModelMove>, k: nat, o: Origin)
    requires k <= |raw|
    ensures o in Sources(raw, decode, k) <==> k <= o.start && IsSource(raw, decode, o)
  {
    var part := raw[k..];
    MovedIn(PartOrigins(decode, part), k, o);
    if k <= o.start && k <= o.end {
      var p := Origin(o.start - k, o.end - k, o.black);
      PartExact(decode, part, p);
      SourceMoved(raw, decode, k, p);
    }
  }

  lemma SourcesOrdered(raw: string, decode: string -> Option<ModelMove>, k: nat)
    requires k <= |raw|
    ensures InOrder(Sources(raw, decode, k))
  {
    var part := raw[k..];
    LeavesExact(part, |part|);
    OriginsOrdered(decode, part, Leaves(part, |part|));
  }

  lemma LabelMoved(raw: string, decode: string -> Option<ModelMove>, k: nat, p: Origin)
    requires k <= |raw| && IsSource(raw, decode, Moved(p, k))
    ensures Labelled(decode, raw[k..], p)
      == (if p.black then "black" else "white",
          SideText(decode(raw[p.start + k..p.end + k + 1]).value, p.black))
  {
    LeafMoved(raw, k, p.start, p.end);
  }

  lemma SourceToken(raw: string, decode: string -> Option<ModelMove>, k: nat, n: nat, t: Token)
    requires k <= |raw| && n < |Sources(raw, decode, k)|
    requires n < |PartOrigins(decode, raw[k..])|
    requires var text := Labelled(decode, raw[k..], PartOrigins(decode, raw[k..])[n]);
      t == Token(n + 1, text.0, text.1, 0.5)
    ensures IsTokenOf(raw, decode, Sources(raw, decode, k)[n], n, t)
  {
    var p := PartOrigins(decode, raw[k..])[n];
    assert Sources(raw, decode, k)[n] == Moved(p, k);
    assert Moved(p, k) in Sources(raw, decode, k);
    SourcesExact(raw, decode, k, Moved(p, k));
    LabelMoved(raw, decode, k, p);
  }

  lemma SourcesAll(raw: string, decode: string -> Option<ModelMove>, k: nat)
    requires k <= |raw|
    ensures forall o :: o in Sources(raw, decode, k) <==> k <= o.start && IsSource(raw, decode, o)
  {
    forall o ensures o in Sources(raw, decode, k) <==> k <= o.start && IsSource(raw, decode, o) {
      SourcesExact(raw, decode, k, o);
    }
  }

  lemma TokensLabelled(raw: string, decode: string -> Option<ModelMove>, k: nat, out: seq<Token>)
    requires k <= |raw|
    requires IsFlattened(Decoded(decode, RangeTexts(raw[k..], Leaves(raw[k..], |raw[k..]|))), out)
    ensures |out| == |Sources(raw, decode, k)|
    ensures forall n :: 0 <= n < |out| ==> IsTokenOf(raw, decode, Sources(raw, decode, k)[n], n, out[n])
  {
    var part := raw[k..];
    TextsLabelled(decode, part, Leaves(part, |part|));
    forall n | 0 <= n < |out| ensures IsTokenOf(raw, decode, Sources(raw, decode, k)[n], n, out[n]) {
      SourceToken(raw, decode, k, n, out[n]);
    }
  }

  /** What SalvageMoves returns: every text of every decodable leaf object at or behind the key of the
      moves array, each once, in reading order, with its side; and nothing else. */
  lemma SalvageExactly(raw: string, decode: string -> Option<ModelMove>, k: nat, out: seq<Token>)
    requires ScanBegins(raw, k)
    requires var part := MovesPart(raw);
      IsFlattened(Decoded(decode, RangeTexts(part, Leaves(part, |part|))), out)
    ensures k <= |raw|
    ensures IsSalvage(raw, decode, k, Sources(raw, decode, k), out)
  {
    PartBegins(raw, k);
    TokensLabelled(raw, decode, k, out);
    SourcesOrdered(raw, decode, k);
    SourcesAll(raw, decode, k);
  }
}
