/** Where a text is split into games (chesskit/pgn.go). */
module GameSplit {
  import opened Text
  import opened ChessRules
  import opened PgnParser
  import PgnTags
  import PgnWriter
  import TagGrammar
  import T = PgnRoundTrip
  import M = Movetext

  // ---------- where games begin ----------

  datatype Kind = Tag | Blank | Movetext

  /** What each line is. A tag line is never blank. */
  function Kinds(lines: seq<string>): (kinds: seq<Kind>)
    ensures |kinds| == |lines|
    ensures forall i :: 0 <= i < |lines| ==> (kinds[i] == Tag <==> IsTag(lines[i]))
    ensures forall i :: 0 <= i < |lines| ==> (kinds[i] == Blank <==> !IsTag(lines[i]) && Trim(lines[i]) == "")
  {
    seq(|lines|, i requires 0 <= i < |lines| =>
      if IsTag(lines[i]) then Tag else if Trim(lines[i]) == "" then Blank else Movetext)
  }

  lemma TagNotBlank(line: string)
    requires IsTag(line)
    ensures Trim(line) != ""
  {
    var key, val, a, b, c, d, e := TagGrammar.TagLineSplit(line);
    assert line[|a|] == '[';
    var k := StartKept(line, |a|);
    KeepsVisible(TrimLeft(line), |a| - k);
  }

  lemma {:induction false} StartKept(s: string, i: nat) returns (k: nat)
    requires i < |s| && !IsSpace(s[i])
    ensures k <= i < k + |TrimLeft(s)| && TrimLeft(s)[i - k] == s[i]
  {
    if IsSpace(s[0]) {
      k := StartKept(s[1..], i - 1);
      k := k + 1;
    } else {
      k := 0;
    }
  }

  lemma {:induction false} KeepsVisible(s: string, i: nat)
    requires i < |s| && !IsSpace(s[i])
    ensures TrimRight(s) != ""
  {
    if IsSpace(s[|s| - 1]) { KeepsVisible(s[..|s| - 1], i); }
  }

  /** A game begins at a tag line whose nearest line before it that is not blank is movetext. */
  ghost predicate Begins(kinds: seq<Kind>, i: int) {
    && 0 <= i < |kinds| && kinds[i] == Tag
    && exists j :: 0 <= j < i && kinds[j] == Movetext && forall m :: j < m < i ==> kinds[m] == Blank
  }

  /** In increasing order, up to n. */
  ghost predicate Bounds(n: nat, bounds: seq<int>) {
    && (forall k :: 0 <= k < |bounds| ==> 0 <= bounds[k] <= n)
    && (forall k, l :: 0 <= k < l < |bounds| ==> bounds[k] <= bounds[l])
  }

  function SegmentText(lines: seq<string>, lo: int, hi: int): string {
    if 0 <= lo <= hi <= |lines| then Trim(Join(lines[lo..hi], "\n")) else ""
  }

  /** The trimmed texts between the bounds. */
  function Segments(lines: seq<string>, bounds: seq<int>): seq<string> {
    if |bounds| < 2 then [] else [SegmentText(lines, bounds[0], bounds[1])] + Segments(lines, bounds[1..])
  }

  function NotEmpty(texts: seq<string>): seq<string> {
    Filter(texts, t => t != "")
  }

  /** The places from i on where a game begins. */
  ghost function Starts(kinds: seq<Kind>, i: nat): seq<int>
    requires i <= |kinds|
    decreases |kinds| - i
  {
    if i == |kinds| then [] else (if Begins(kinds, i) then [i] else []) + Starts(kinds, i + 1)
  }

  lemma {:induction false} StartsExact(kinds: seq<Kind>, i: nat)
    requires i <= |kinds|
    ensures forall k :: k in Starts(kinds, i) <==> i <= k && Begins(kinds, k)
    ensures forall k, l :: 0 <= k < l < |Starts(kinds, i)| ==> Starts(kinds, i)[k] < Starts(kinds, i)[l]
    ensures forall k :: 0 <= k < |Starts(kinds, i)| ==> i <= Starts(kinds, i)[k] < |kinds|
    decreases |kinds| - i
  {
    if i == |kinds| {
    } else {
      StartsExact(kinds, i + 1);
    }
  }

  // ---------- the splitting loop ----------

  ghost predicate Seen(kinds: seq<Kind>, b: nat, i: nat)
    requires b <= i <= |kinds|
  {
    exists j :: b <= j < i && kinds[j] == Movetext
  }

  /** b is where the open game began: nothing else begins between it and i. */
  ghost predicate OpenAt(kinds: seq<Kind>, b: nat, i: nat) {
    && b <= i <= |kinds| && (b == 0 || (b < i && kinds[b] == Tag))
    && forall m :: b < m < i ==> !Begins(kinds, m)
  }

  lemma {:induction false} LastMovetext(kinds: seq<Kind>, b: nat, i: nat) returns (j: nat)
    requires b <= i <= |kinds| && Seen(kinds, b, i)
    ensures b <= j < i && kinds[j] == Movetext && forall m :: j < m < i ==> kinds[m] != Movetext
    decreases i
  {
    if kinds[i - 1] == Movetext {
      j := i - 1;
    } else {
      j := LastMovetext(kinds, b, i - 1);
    }
  }

  lemma {:induction false} FirstTag(kinds: seq<Kind>, j: nat, i: nat) returns (m: nat)
    requires j < i < |kinds| && kinds[i] == Tag
    ensures j < m <= i && kinds[m] == Tag && forall l :: j < l < m ==> kinds[l] != Tag
    decreases i - j
  {
    if j + 1 == i || kinds[j + 1] == Tag {
      m := j + 1;
    } else {
      m := FirstTag(kinds, j + 1, i);
    }
  }

  lemma BeginsWhere(kinds: seq<Kind>, b: nat, i: nat)
    requires OpenAt(kinds, b, i) && i < |kinds|
    ensures Begins(kinds, i) <==> kinds[i] == Tag && Seen(kinds, b, i)
  {
    if kinds[i] == Tag && Seen(kinds, b, i) {
      var j := LastMovetext(kinds, b, i);
      var m := FirstTag(kinds, j, i);
      assert Begins(kinds, m);
    }
  }

  /** What flushing a game adds to the chunks. */
  type Flusher = seq<string> -> seq<string>

  /** The splitting loop over lines of known kinds. */
  function ChunksOf(flush: Flusher, kinds: seq<Kind>, lines: seq<string>, cur: seq<string>, seen: bool): seq<string>
    requires |kinds| == |lines|
    decreases |lines|
  {
    if lines == [] then flush(cur)
    else if kinds[0] == Tag && seen then flush(cur) + ChunksOf(flush, kinds[1..], lines[1..], [lines[0]], false)
    else ChunksOf(flush, kinds[1..], lines[1..], cur + [lines[0]], seen || kinds[0] == Movetext)
  }

  lemma {:induction false} ChunksAreOf(flush: Flusher, lines: seq<string>, cur: seq<string>, seen: bool)
    requires forall c :: flush(c) == Flush(c)
    ensures Chunks(lines, cur, seen) == ChunksOf(flush, Kinds(lines), lines, cur, seen)
    decreases |lines|
  {
    if lines == [] {
    } else {
      assert Kinds(lines)[1..] == Kinds(lines[1..]);
      var ln := lines[0];
      if IsTag(ln) { TagNotBlank(ln); }
      if IsTag(ln) && seen {
        ChunksAreOf(flush, lines[1..], [ln], false);
      } else {
        ChunksAreOf(flush, lines[1..], cur + [ln], seen || (!IsTag(ln) && Trim(ln) != ""));
      }
    }
  }

  /** The games between the bounds, flushed. */
  ghost function Flushed(flush: Flusher, lines: seq<string>, bounds: seq<int>): seq<string>
    requires Bounds(|lines|, bounds)
  {
    if |bounds| < 2 then [] else flush(lines[bounds[0]..bounds[1]]) + Flushed(flush, lines, bounds[1..])
  }

  lemma {:induction false} FlushedTexts(flush: Flusher, lines: seq<string>, bounds: seq<int>)
    requires (forall c :: flush(c) == Flush(c)) && Bounds(|lines|, bounds)
    ensures Flushed(flush, lines, bounds) == NotEmpty(Segments(lines, bounds))
    decreases |bounds|
  {
    if |bounds| < 2 {
    } else {
      FlushedTexts(flush, lines, bounds[1..]);
      OneFlushed(lines, bounds[0], bounds[1], Segments(lines, bounds[1..]));
    }
  }

  lemma OneFlushed(lines: seq<string>, lo: int, hi: int, more: seq<string>)
    requires 0 <= lo <= hi <= |lines|
    ensures Flush(lines[lo..hi]) + NotEmpty(more) == NotEmpty([SegmentText(lines, lo, hi)] + more)
  {
    var t := SegmentText(lines, lo, hi);
    assert ([t] + more)[1..] == more;
    if lo == hi { assert t == ""; }
  }

  /** The bounds from the open game on. */
  ghost function BoundsFrom(kinds: seq<Kind>, b: nat, i: nat): (bounds: seq<int>)
    requires b <= i <= |kinds|
    ensures Bounds(|kinds|, bounds) && bounds != []
  {
    StartsExact(kinds, i);
    [b] + Starts(kinds, i) + [|kinds|]
  }

  lemma BoundsOn(kinds: seq<Kind>, b: nat, i: nat)
    requires b <= i < |kinds|
    ensures BoundsFrom(kinds, b, i)
      == if Begins(kinds, i) then [b] + BoundsFrom(kinds, i, i + 1) else BoundsFrom(kinds, b, i + 1)
  {
  }

  /** What the loop adds from line i on, with the game from b still open. */
  ghost function LoopFrom(flush: Flusher, kinds: seq<Kind>, lines: seq<string>, b: nat, i: nat): seq<string>
    requires b <= i <= |lines| == |kinds|
  {
    ChunksOf(flush, kinds[i..], lines[i..], lines[b..i], Seen(kinds, b, i))
  }

  lemma LineTaken(flush: Flusher, kinds: seq<Kind>, lines: seq<string>, b: nat, i: nat)
    requires OpenAt(kinds, b, i) && i < |lines| == |kinds|
    ensures LoopFrom(flush, kinds, lines, b, i)
      == if Begins(kinds, i) then flush(lines[b..i]) + LoopFrom(flush, kinds, lines, i, i + 1)
         else LoopFrom(flush, kinds, lines, b, i + 1)
  {
    BeginsWhere(kinds, b, i);
    assert lines[i..][1..] == lines[i + 1..] && kinds[i..][1..] == kinds[i + 1..];
    assert lines[i..i + 1] == [lines[i]] && lines[b..i] + [lines[i]] == lines[b..i + 1];
    assert Seen(kinds, b, i + 1) <==> Seen(kinds, b, i) || kinds[i] == Movetext;
  }

  lemma RestTaken(flush: Flusher, kinds: seq<Kind>, lines: seq<string>, b: nat, i: nat)
    requires b <= i < |lines| == |kinds|
    ensures Flushed(flush, lines, BoundsFrom(kinds, b, i))
      == if Begins(kinds, i) then flush(lines[b..i]) + Flushed(flush, lines, BoundsFrom(kinds, i, i + 1))
         else Flushed(flush, lines, BoundsFrom(kinds, b, i + 1))
  {
    BoundsOn(kinds, b, i);
    if Begins(kinds, i) {
      var rest := BoundsFrom(kinds, i, i + 1);
      assert ([b] + rest)[1..] == rest && rest[0] == i;
    }
  }

  lemma LinesEnd(flush: Flusher, kinds: seq<Kind>, lines: seq<string>, b: nat)
    requires b <= |lines| == |kinds|
    ensures LoopFrom(flush, kinds, lines, b, |lines|) == Flushed(flush, lines, BoundsFrom(kinds, b, |lines|))
  {
    var n := |lines|;
    assert BoundsFrom(kinds, b, n) == [b, n] && [b, n][1..] == [n];
    assert lines[n..] == [] && Flushed(flush, lines, [n]) == [];
  }

  lemma {:induction false} LoopSplits(flush: Flusher, kinds: seq<Kind>, lines: seq<string>, b: nat, i: nat)
    requires OpenAt(kinds, b, i) && |lines| == |kinds|
    ensures LoopFrom(flush, kinds, lines, b, i) == Flushed(flush, lines, BoundsFrom(kinds, b, i))
    decreases |lines| - i
  {
    if i == |lines| {
      LinesEnd(flush, kinds, lines, b);
    } else {
      LineTaken(flush, kinds, lines, b, i);
      RestTaken(flush, kinds, lines, b, i);
      LoopSplits(flush, kinds, lines, if Begins(kinds, i) then i else b, i + 1);
    }
  }

  /** A text is split exactly at the lines where a game begins; texts of blank lines are dropped. */
  lemma SplitExactly(lines: seq<string>)
    ensures var kinds := Kinds(lines);
      && (forall k :: k in Starts(kinds, 0) <==> Begins(kinds, k))
      && (forall k, l :: 0 <= k < l < |Starts(kinds, 0)| ==> Starts(kinds, 0)[k] < Starts(kinds, 0)[l])
      && Bounds(|lines|, [0] + Starts(kinds, 0) + [|lines|])
      && Chunks(lines, [], false) == NotEmpty(Segments(lines, [0] + Starts(kinds, 0) + [|lines|]))
  {
    var kinds := Kinds(lines);
    var flush := (cur: seq<string>) => Flush(cur);
    StartsExact(kinds, 0);
    ChunksAreOf(flush, lines, [], false);
    assert OpenAt(kinds, 0, 0) && !Seen(kinds, 0, 0);
    LoopSplits(flush, kinds, lines, 0, 0);
    assert lines[0..] == lines && kinds[0..] == kinds && lines[0..0] == [];
    FlushedTexts(flush, lines, BoundsFrom(kinds, 0, 0));
  }

  // ---------- line ends ----------

  /** A text without carriage returns is read the same with CR LF line ends. */
  lemma {:induction false} CarriageReturnsGo(s: string)
    requires Lacks(s, '\r')
    ensures ReplaceAll(ReplaceAll(s, "\n", "\r\n"), "\r\n", "\n") == s
  {
    if s == "" {
    } else {
      CarriageReturnsGo(s[1..]);
      var rest := ReplaceAll(s[1..], "\n", "\r\n");
      assert s == [s[0]] + s[1..];
      if s[0] == '\n' {
        assert s[..1] == "\n";
        var t := "\r\n" + rest;
        assert t[..2] == "\r\n" && t[2..] == rest;
      } else {
        assert s[..1] != "\n";
        var t := [s[0]] + rest;
        assert t[1..] == rest;
        if |t| >= 2 { assert t[..2][0] == s[0]; }
      }
    }
  }

  lemma LineEndsAlike(r: Rules, text: string)
    requires Lacks(text, '\r')
    ensures Parsed(r, ReplaceAll(text, "\n", "\r\n")) == Parsed(r, text)
  {
    CarriageReturnsGo(text);
    forall k | 0 <= k <= |text| ensures !("\r\n" <= text[k..]) {
      if k < |text| { assert text[k..][0] == text[k]; }
    }
    ReplaceAbsent(text, "\r\n", "\n");
  }

  // ---------- what is dropped ----------

  /** A chunk that only gives the date, the round, the board or the result is dropped, although it is not
      empty. */
  lemma TagAloneDropped(r: Rules, key: string, val: string)
    requires key in ["Date", "Round", "Board", "Result"] && Lacks(val, '\n')
    ensures PgnTags.TagLine(key, val) != "" && ParsedChunk(r, PgnTags.TagLine(key, val)) == None
  {
    var line := PgnTags.TagLine(key, val);
    assert PgnTags.IsKey(key);
    PgnTags.TagLineMatches(key, val);
    EscapeIsWhole(key, val);
    SplitWhole(line, '\n');
    var lines := [line];
    assert lines[1..] == [];
    assert OtherLines(lines) == [];
    TrimSolid("");
    TagGrammar.DroppedExactly(r, line);
  }

  lemma EscapeIsWhole(key: string, val: string)
    requires PgnTags.IsKey(key) && Lacks(val, '\n')
    ensures Lacks(PgnTags.TagLine(key, val), '\n')
  {
    T.TagLineShape(key, val);
  }
}
