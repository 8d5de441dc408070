/** Writing PGN games and bundles of games (chesskit/pgn.go). */
module PgnWriter {
  import opened Text
  import opened Sorting
  import opened SanMoves
  import opened PgnTags
  import M = Movetext
  import W = MovetextWriter

  datatype Game = Game(header: Header, moves: seq<M.Move>, startFen: string)

  // ---------- what is written ----------

  function ResultText(h: Header): string {
    if h.result == "" then "*" else h.result
  }

  function RosterField(h: Header, key: string): string {
    if key == "Event" then h.event
    else if key == "Site" then h.site
    else if key == "Date" then h.date
    else if key == "Round" then h.round
    else if key == "White" then h.white
    else if key == "Black" then h.black
    else ResultText(h)
  }

  function RosterValue(h: Header, key: string): string {
    if RosterField(h, key) == "" then DefaultTag(key) else RosterField(h, key)
  }

  /** A start position other than the standard one is recorded in the FEN and SetUp tags. */
  function WithStart(extra: map<string, string>, start: string): map<string, string> {
    if start == "" || start == STARTING_FEN then extra
    else
      var e := if "FEN" in extra then extra else extra["FEN" := start];
      if "SetUp" in e then e else e["SetUp" := "1"]
  }

  /** The tags written after the roster: Extra, Board, and SetUp/FEN. */
  function ExtraTags(g: Game): map<string, string> {
    WithStart(if g.header.board != "" then g.header.extra["Board" := g.header.board] else g.header.extra,
              g.startFen)
  }

  /** The keys of a map in sorted order. */
  ghost function SortedKeys(keys: set<string>): seq<string> {
    InOrder(keys, LexLe)
  }

  lemma SortedKeysElements(keys: set<string>)
    ensures forall k :: k in SortedKeys(keys) <==> k in keys
    ensures multiset(SortedKeys(keys)) == multiset(keys)
  {
    LexOrder();
    InOrderElements(keys, LexLe);
  }

  function KeyLines(keys: seq<string>, tags: map<string, string>): (lines: seq<string>)
    requires forall k :: k in keys ==> k in tags
    ensures |lines| == |keys|
    ensures forall i :: 0 <= i < |keys| ==> lines[i] == TagLine(keys[i], tags[keys[i]])
  {
    seq(|keys|, i requires 0 <= i < |keys| => TagLine(keys[i], tags[keys[i]]))
  }

  function RosterLines(h: Header, keys: seq<string>): (lines: seq<string>)
    ensures |lines| == |keys|
    ensures forall i :: 0 <= i < |keys| ==> lines[i] == TagLine(keys[i], RosterValue(h, keys[i]))
  {
    seq(|keys|, i requires 0 <= i < |keys| => TagLine(keys[i], RosterValue(h, keys[i])))
  }

  ghost function TagLines(g: Game): seq<string> {
    var extra := ExtraTags(g);
    SortedKeysElements(extra.Keys);
    RosterLines(g.header, ROSTER) + KeyLines(SortedKeys(extra.Keys), extra)
  }

  function MoveLines(g: Game): (lines: seq<string>)
    ensures lines != []
  {
    W.Wrapped(W.Parts(g.startFen, g.moves, ResultText(g.header)))
  }

  /** The lines of a written game. */
  ghost function GameLines(g: Game): (lines: seq<string>)
    ensures lines != []
  {
    TagLines(g) + [""] + MoveLines(g)
  }

  /** Lines, each with its end. */
  function Unlines(lines: seq<string>): string {
    if lines == [] then "" else lines[0] + "\n" + Unlines(lines[1..])
  }

  ghost function GameText(g: Game): string {
    Unlines(GameLines(g))
  }

  function TrimNewlines(s: string): string {
    if s != "" && s[|s| - 1] == '\n' then TrimNewlines(s[..|s| - 1]) else s
  }

  /** One game of a bundle: its text without the final line end. */
  function PartText(lines: seq<string>): string {
    TrimNewlines(Unlines(lines))
  }

  function PartTexts(all: seq<seq<string>>): (texts: seq<string>)
    ensures |texts| == |all|
    ensures forall i :: 0 <= i < |all| ==> texts[i] == PartText(all[i])
  {
    seq(|all|, i requires 0 <= i < |all| => PartText(all[i]))
  }

  ghost function LinesOfGames(games: seq<Game>): (all: seq<seq<string>>)
    ensures |all| == |games|
    ensures forall i :: 0 <= i < |games| ==> all[i] == GameLines(games[i])
  {
    seq(|games|, i requires 0 <= i < |games| => GameLines(games[i]))
  }

  function BundleOf(all: seq<seq<string>>): string {
    Join(PartTexts(all), "\n\n") + "\n"
  }

  ghost function BundleText(games: seq<Game>): string {
    BundleOf(LinesOfGames(games))
  }

  // ---------- the writer ----------

  lemma {:induction false} UnlinesAppend(a: seq<string>, b: seq<string>)
    ensures Unlines(a + b) == Unlines(a) + Unlines(b)
  {
    if a == [] {
      assert a + b == b;
    } else {
      assert (a + b)[1..] == a[1..] + b;
      UnlinesAppend(a[1..], b);
    }
  }

  lemma {:induction false} UnlinesJoin(lines: seq<string>)
    requires lines != []
    ensures Unlines(lines) == Join(lines, "\n") + "\n"
  {
    if |lines| > 1 {
      UnlinesJoin(lines[1..]);
    } else {
      assert Unlines(lines[1..]) == "";
    }
  }

  lemma UnlinesSnoc(a: seq<string>, l: string)
    ensures Unlines(a + [l]) == Unlines(a) + l + "\n"
  {
    UnlinesAppend(a, [l]);
    assert Unlines([l]) == l + "\n";
  }

  /** Ranges over a map in any order and sorts the keys. */
  method KeysInOrder(tags: map<string, string>) returns (keys: seq<string>)
    ensures keys == SortedKeys(tags.Keys)
  {
    keys := [];
    var rest := tags.Keys;
    while rest != {}
      invariant rest <= tags.Keys
      invariant multiset(keys) + multiset(rest) == multiset(tags.Keys)
      decreases rest
    {
      var k :| k in rest;
      assert multiset(rest) == multiset{k} + multiset(rest - {k});
      keys, rest := keys + [k], rest - {k};
    }
    LexOrder();
    SortCorrect(keys, LexLe);
    SortCorrect(Enumerate(tags.Keys), LexLe);
    keys := Sort(keys, LexLe);
    SortedUnique(keys, SortedKeys(tags.Keys), LexLe);
  }

  lemma NextTagLine(lines: seq<string>, i: nat, b: string, key: string, val: string)
    requires i < |lines| && lines[i] == TagLine(key, val) && b == Unlines(lines[..i])
    ensures b + "[" + key + " \"" + Escape(val) + "\"]\n" == Unlines(lines[..i + 1])
  {
    assert lines[..i + 1] == lines[..i] + [lines[i]];
    UnlinesSnoc(lines[..i], lines[i]);
    assert b + "[" + key + " \"" + Escape(val) + "\"]\n" == b + TagLine(key, val) + "\n";
  }

  /** The Seven Tag Roster in its fixed order. */
  method WriteRoster(h: Header) returns (b: string)
    ensures b == Unlines(RosterLines(h, ROSTER))
  {
    b := "";
    ghost var all := RosterLines(h, ROSTER);
    for i := 0 to |ROSTER|
      invariant b == Unlines(all[..i])
    {
      var key := ROSTER[i];
      var val := RosterField(h, key);
      if val == "" { val := DefaultTag(key); }
      NextTagLine(all, i, b, key, val);
      b := b + "[" + key + " \"" + Escape(val) + "\"]\n";
    }
    assert all[..|ROSTER|] == all;
  }

  method WriteExtra(extra: map<string, string>) returns (b: string)
    ensures (forall k :: k in SortedKeys(extra.Keys) ==> k in extra)
      && b == Unlines(KeyLines(SortedKeys(extra.Keys), extra))
  {
    b := "";
    var keys := KeysInOrder(extra);
    SortedKeysElements(extra.Keys);
    ghost var lines := KeyLines(keys, extra);
    for i := 0 to |keys|
      invariant b == Unlines(lines[..i])
    {
      assert keys[i] in keys;
      NextTagLine(lines, i, b, keys[i], extra[keys[i]]);
      b := b + "[" + keys[i] + " \"" + Escape(extra[keys[i]]) + "\"]\n";
    }
    assert lines[..|keys|] == lines;
  }

  method WritePgn(g: Game) returns (b: string)
    ensures b == GameText(g)
  {
    var res := g.header.result;
    if res == "" { res := "*"; }
    b := WriteRoster(g.header);
    var extra := g.header.extra;
    if g.header.board != "" { extra := extra["Board" := g.header.board]; }
    if g.startFen != "" && g.startFen != STARTING_FEN {
      if "FEN" !in extra { extra := extra["FEN" := g.startFen]; }
      if "SetUp" !in extra { extra := extra["SetUp" := "1"]; }
    }
    assert extra == ExtraTags(g);
    var more := WriteExtra(extra);
    UnlinesAppend(RosterLines(g.header, ROSTER), KeyLines(SortedKeys(extra.Keys), extra));
    b := b + more;
    ghost var tags := TagLines(g);
    assert b == Unlines(tags);
    b := b + "\n";
    var movetext := W.BuildMovetext(g.startFen, g.moves, res);
    AssembleText(tags, MoveLines(g));
    b := b + movetext;
    b := b + "\n";
  }

  lemma AssembleText(tags: seq<string>, moves: seq<string>)
    requires moves != []
    ensures Unlines(tags + [""] + moves) == Unlines(tags) + "\n" + Join(moves, "\n") + "\n"
  {
    UnlinesSnoc(tags, "");
    UnlinesAppend(tags + [""], moves);
    UnlinesJoin(moves);
    assert Unlines(tags) + "" + "\n" == Unlines(tags) + "\n";
  }

  method WritePart(g: Game) returns (s: string)
    ensures s == PartText(GameLines(g))
  {
    s := WritePgn(g);
    s := TrimNewlines(s);
  }

  method WriteBundlePgn(games: seq<Game>) returns (text: string)
    ensures text == BundleText(games)
  {
    var parts := [];
    ghost var all := LinesOfGames(games);
    for i := 0 to |games|
      invariant parts == PartTexts(all[..i])
    {
      var s := WritePart(games[i]);
      assert all[i] == GameLines(games[i]);
      PartTextsSnoc(all, i);
      parts := parts + [s];
    }
    assert all[..|games|] == all;
    text := Join(parts, "\n\n") + "\n";
  }

  lemma PartTextsSnoc(all: seq<seq<string>>, i: nat)
    requires i < |all|
    ensures PartTexts(all[..i + 1]) == PartTexts(all[..i]) + [PartText(all[i])]
  {
  }
}
