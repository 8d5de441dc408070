/** The layout of a written game: which tags stand where, and how full its lines are
    (chesskit/pgn.go; PGN sections 8.1 and 8.2.1). */
module WrittenLayout {
  import opened Text
  import opened Sorting
  import opened PgnTags
  import opened PgnWriter
  import SanMoves
  import M = Movetext
  import W = MovetextWriter
  import T = PgnRoundTrip

  // ---------- tags ----------

  /** The Seven Tag Roster in its order, with a default for every empty field. */
  function Roster(h: Header): seq<string> {
    [TagLine("Event", T.OrElse(h.event, "?")),
     TagLine("Site", T.OrElse(h.site, "?")),
     TagLine("Date", T.OrElse(h.date, "????.??.??")),
     TagLine("Round", T.OrElse(h.round, "?")),
     TagLine("White", T.OrElse(h.white, "?")),
     TagLine("Black", T.OrElse(h.black, "?")),
     TagLine("Result", T.OrElse(h.result, "*"))]
  }

  /** A further tag of a game: its board, its own tags, and FEN and SetUp for a start position other than
      the standard one where it does not bring them itself. */
  ghost predicate FurtherTag(g: Game, key: string, val: string) {
    var h, other := g.header, g.startFen != "" && g.startFen != SanMoves.STARTING_FEN;
    if key == "Board" && h.board != "" then val == h.board
    else if key in h.extra then val == h.extra[key]
    else other && ((key == "FEN" && val == g.startFen) || (key == "SetUp" && val == "1"))
  }

  /** These tag lines are the further tags, each once, by ascending key. */
  ghost predicate ListsFurther(g: Game, keys: seq<string>, vals: seq<string>) {
    && |vals| == |keys|
    && (forall i, j :: 0 <= i < j < |keys| ==> LexLe(keys[i], keys[j]) && keys[i] != keys[j])
    && (forall key, val :: FurtherTag(g, key, val) <==>
          exists i :: 0 <= i < |keys| && keys[i] == key && vals[i] == val)
  }

  function TagTexts(keys: seq<string>, vals: seq<string>): (lines: seq<string>)
    requires |vals| == |keys|
    ensures |lines| == |keys|
    ensures forall i :: 0 <= i < |keys| ==> lines[i] == TagLine(keys[i], vals[i])
  {
    seq(|keys|, i requires 0 <= i < |keys| => TagLine(keys[i], vals[i]))
  }

  function ValuesOf(keys: seq<string>, tags: map<string, string>): (vals: seq<string>)
    requires forall k :: k in keys ==> k in tags
    ensures |vals| == |keys|
    ensures forall i :: 0 <= i < |keys| ==> vals[i] == tags[keys[i]]
  {
    seq(|keys|, i requires 0 <= i < |keys| => tags[keys[i]])
  }

  lemma PlaceValues(h: Header)
    ensures RosterValue(h, "Event") == T.OrElse(h.event, "?")
    ensures RosterValue(h, "Site") == T.OrElse(h.site, "?")
    ensures RosterValue(h, "Date") == T.OrElse(h.date, "????.??.??")
    ensures RosterValue(h, "Round") == T.OrElse(h.round, "?")
  {
  }

  lemma PlayerValues(h: Header)
    ensures RosterValue(h, "White") == T.OrElse(h.white, "?")
    ensures RosterValue(h, "Black") == T.OrElse(h.black, "?")
    ensures RosterValue(h, "Result") == T.OrElse(h.result, "*")
  {
  }

  lemma RosterWritten(h: Header)
    ensures RosterLines(h, ROSTER) == Roster(h)
  {
    PlaceValues(h);
    PlayerValues(h);
  }

  lemma ExtraExactly(g: Game, key: string, val: string)
    ensures FurtherTag(g, key, val) <==> key in ExtraTags(g) && ExtraTags(g)[key] == val
  {
  }

  /** A sorted list without repetitions. */
  lemma KeysAscend(tags: map<string, string>, i: nat, j: nat)
    requires i < j < |SortedKeys(tags.Keys)|
    ensures LexLe(SortedKeys(tags.Keys)[i], SortedKeys(tags.Keys)[j])
    ensures SortedKeys(tags.Keys)[i] != SortedKeys(tags.Keys)[j]
  {
    var keys := SortedKeys(tags.Keys);
    LexOrder();
    InOrderElements(tags.Keys, LexLe);
    var k := keys[i];
    assert multiset(keys)[k] <= 1;
    if keys[j] == k { TwiceInside(keys, i, j); }
  }

  lemma TwiceInside(keys: seq<string>, i: nat, j: nat)
    requires i < j < |keys| && keys[i] == keys[j]
    ensures multiset(keys)[keys[i]] >= 2
  {
    assert keys == keys[..j] + keys[j..];
    assert keys[..j][i] == keys[i] && keys[j..][0] == keys[i];
    assert keys[i] in multiset(keys[..j]) && keys[i] in multiset(keys[j..]);
  }

  /** What stands in a written game: the roster, the further tags by ascending key, an empty line, and the
      movetext. */
  lemma GameLayout(g: Game)
    ensures exists keys, vals ::
      && ListsFurther(g, keys, vals)
      && GameLines(g) == Roster(g.header) + TagTexts(keys, vals) + [""] + MoveLines(g)
  {
    var extra := ExtraTags(g);
    var keys := SortedKeys(extra.Keys);
    SortedKeysElements(extra.Keys);
    var vals := ValuesOf(keys, extra);
    FurtherListed(g);
    RosterWritten(g.header);
    assert KeyLines(keys, extra) == TagTexts(keys, vals);
    assert ListsFurther(g, keys, vals);
  }

  lemma FurtherListed(g: Game)
    ensures forall k :: k in SortedKeys(ExtraTags(g).Keys) ==> k in ExtraTags(g)
    ensures ListsFurther(g, SortedKeys(ExtraTags(g).Keys), ValuesOf(SortedKeys(ExtraTags(g).Keys), ExtraTags(g)))
  {
    var extra := ExtraTags(g);
    var keys := SortedKeys(extra.Keys);
    SortedKeysElements(extra.Keys);
    forall i, j | 0 <= i < j < |keys| ensures LexLe(keys[i], keys[j]) && keys[i] != keys[j] {
      KeysAscend(extra, i, j);
    }
    forall key, val ensures FurtherTag(g, key, val)
      <==> exists i :: 0 <= i < |keys| && keys[i] == key && ValuesOf(keys, extra)[i] == val
    {
      ExtraExactly(g, key, val);
      PairListed(keys, extra, key, val);
    }
  }

  lemma PairListed(keys: seq<string>, tags: map<string, string>, key: string, val: string)
    requires forall k :: k in keys <==> k in tags
    ensures key in tags && tags[key] == val
      <==> exists i :: 0 <= i < |keys| && keys[i] == key && ValuesOf(keys, tags)[i] == val
  {
    if key in tags { assert key in keys; }
  }

  // ---------- lines ----------

  /** A line is ended only where the next part would not have fitted. */
  ghost predicate Full(lines: seq<seq<string>>) {
    forall i :: 0 <= i < |lines| - 1 ==> NoRoom(lines[i], lines[i + 1])
  }

  predicate NoRoom(line: seq<string>, next: seq<string>) {
    next != [] && |Join(line, " ")| + 1 + |next[0]| > 80
  }

  function AllParts(lines: seq<seq<string>>): seq<string> {
    if lines == [] then [] else lines[0] + AllParts(lines[1..])
  }

  /** At most 80 columns, or a single part. */
  ghost predicate Fit(lines: seq<seq<string>>) {
    forall i :: 0 <= i < |lines| ==> FitsLine(lines[i])
  }

  predicate FitsLine(line: seq<string>) {
    line != [] && (|Join(line, " ")| <= 80 || |line| == 1)
  }

  lemma {:induction false} FilledFrom(line: seq<string>, parts: seq<string>)
    requires FitsLine(line) && line[0] != "" && forall p :: p in parts ==> p != ""
    ensures var lines := W.LinesFrom(line, parts);
      && Fit(lines) && Full(lines) && AllParts(lines) == line + parts
      && line <= lines[0]
    decreases |parts|
  {
    JoinNotEmpty(line);
    if parts != [] { assert parts[0] in parts && forall p :: p in parts[1..] ==> p in parts; }
    if parts == [] {
      assert AllParts([line]) == line + [] && line + [] == line;
      assert AllParts([line][1..]) == [];
    } else if |Join(line, " ")| + |parts[0]| + 1 > 80 {
      FilledFrom([parts[0]], parts[1..]);
      LineEnded(line, W.LinesFrom([parts[0]], parts[1..]), parts);
    } else {
      JoinAppend(line, [parts[0]], " ");
      FilledFrom(line + [parts[0]], parts[1..]);
      assert line + [parts[0]] + parts[1..] == line + parts;
    }
  }

  lemma LineEnded(line: seq<string>, rest: seq<seq<string>>, parts: seq<string>)
    requires parts != [] && rest != [] && [parts[0]] <= rest[0]
    requires FitsLine(line) && Fit(rest) && Full(rest) && AllParts(rest) == [parts[0]] + parts[1..]
    requires |Join(line, " ")| + |parts[0]| + 1 > 80
    ensures Fit([line] + rest) && Full([line] + rest) && AllParts([line] + rest) == line + parts
  {
    var lines := [line] + rest;
    assert lines[1..] == rest && [parts[0]] + parts[1..] == parts;
    forall i | 0 <= i < |lines| - 1 ensures NoRoom(lines[i], lines[i + 1]) {
      if i > 0 { assert NoRoom(rest[i - 1], rest[i]); }
    }
  }

  lemma JoinNotEmpty(line: seq<string>)
    requires line != [] && line[0] != ""
    ensures |Join(line, " ")| > 0
  {
  }

  /** The written lines hold the parts in order, each line as many as fit, and no more. */
  lemma LinesFilled(parts: seq<string>)
    requires parts != [] && forall p :: p in parts ==> p != ""
    ensures var lines := W.LinesFrom([parts[0]], parts[1..]);
      Fit(lines) && Full(lines) && AllParts(lines) == parts && W.Wrapped(parts) == W.JoinLines(lines)
  {
    assert parts[0] in parts && forall p :: p in parts[1..] ==> p in parts;
    FilledFrom([parts[0]], parts[1..]);
    assert [parts[0]] + parts[1..] == parts;
  }

  /** There is only one such filling. */
  lemma {:induction false} FillingUnique(a: seq<seq<string>>, b: seq<seq<string>>)
    requires Fit(a) && Full(a) && Fit(b) && Full(b) && AllParts(a) == AllParts(b)
    requires forall p :: p in AllParts(a) ==> p != ""
    ensures a == b
    decreases |a|
  {
    PartsLeft(a);
    PartsLeft(b);
    if a != [] && b != [] {
      FirstLinesAgree(a, b);
      FillingTail(a);
      FillingTail(b);
      assert AllParts(a[1..]) == AllParts(a)[|a[0]|..] == AllParts(b[1..]);
      FillingUnique(a[1..], b[1..]);
      assert a == [a[0]] + a[1..] && b == [b[0]] + b[1..];
    }
  }

  lemma PartsLeft(a: seq<seq<string>>)
    ensures Fit(a) ==> (AllParts(a) == [] <==> a == [])
  {
    if a != [] { assert Fit(a) ==> FitsLine(a[0]); }
  }

  lemma FillingTail(a: seq<seq<string>>)
    requires a != [] && Fit(a) && Full(a)
    ensures Fit(a[1..]) && Full(a[1..])
    ensures forall p :: p in AllParts(a[1..]) ==> p in AllParts(a)
  {
    forall i | 0 <= i < |a[1..]| - 1 ensures NoRoom(a[1..][i], a[1..][i + 1]) { assert NoRoom(a[i + 1], a[i + 2]); }
  }

  lemma FirstLinesAgree(a: seq<seq<string>>, b: seq<seq<string>>)
    requires a != [] && b != [] && Fit(a) && Full(a) && Fit(b) && Full(b) && AllParts(a) == AllParts(b)
    ensures a[0] == b[0]
  {
    if |a[0]| < |b[0]| {
      LongerOverflows(a, b);
    } else if |b[0]| < |a[0]| {
      LongerOverflows(b, a);
    } else {
      assert a[0] == AllParts(a)[..|a[0]|] && b[0] == AllParts(b)[..|b[0]|];
    }
  }

  /** A longer first line would not fit. */
  lemma LongerOverflows(a: seq<seq<string>>, b: seq<seq<string>>)
    requires a != [] && b != [] && Fit(a) && Full(a) && AllParts(a) == AllParts(b) && |a[0]| < |b[0]|
    ensures !FitsLine(b[0])
  {
    OneMore(a[0], AllParts(a[1..]), b[0], AllParts(b[1..]));
    assert a[1..] != [] && a[1..][0] == a[1];
    assert NoRoom(a[0], a[1]) && FitsLine(a[0]);
    NextPart(a[1..], AllParts(a[1..]));
    PrefixShorter(a[0], a[1][0], b[0]);
    NotFitting(b[0]);
  }

  lemma NotFitting(line: seq<string>)
    requires |line| > 1 && |Join(line, " ")| > 80
    ensures !FitsLine(line)
  {
  }

  lemma OneMore(a: seq<string>, rest: seq<string>, b: seq<string>, more: seq<string>)
    requires a + rest == b + more && |a| < |b|
    ensures rest != [] && a + [rest[0]] <= b
  {
    assert (a + rest)[..|a| + 1] == (b + more)[..|a| + 1] == b[..|a| + 1];
  }

  lemma NextPart(a: seq<seq<string>>, all: seq<string>)
    requires a != [] && a[0] != [] && AllParts(a) == all
    ensures all != [] && all[0] == a[0][0]
  {
  }

  lemma PrefixShorter(line: seq<string>, next: string, longer: seq<string>)
    requires line != [] && line + [next] <= longer
    ensures |Join(longer, " ")| >= |Join(line, " ")| + 1 + |next|
  {
    JoinAppend(line, [next], " ");
    var rest := longer[|line| + 1..];
    assert longer == line + [next] + rest;
    if rest != [] { JoinAppend(line + [next], rest, " "); } else { assert longer == line + [next]; }
  }
}
