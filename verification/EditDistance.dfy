/** The two rolling-row Levenshtein loops and the meaning they share: the cost of the cheapest
    script of single-character edits. */
module EditDistance {
  import opened Text

  // ---------- edit scripts ----------

  datatype Edit = Keep | Substitute(c: char) | Insert(c: char) | Delete

  function Init<T>(s: seq<T>): (t: seq<T>)
    requires s != []
    ensures |t| == |s| - 1
  {
    s[..|s| - 1]
  }

  function Last<T>(s: seq<T>): T
    requires s != []
  {
    s[|s| - 1]
  }

  /** What a script makes of a text. The last edit produces the end of the output; None when the
      script does not fit the length of the text. */
  function Run(script: seq<Edit>, a: string): Option<string>
    decreases |script|
  {
    if script == [] then (if a == "" then Some("") else None)
    else match Last(script)
      case Keep => if a == "" then None else Append(Run(Init(script), Init(a)), Last(a))
      case Substitute(c) => if a == "" then None else Append(Run(Init(script), Init(a)), c)
      case Insert(c) => Append(Run(Init(script), a), c)
      case Delete => if a == "" then None else Run(Init(script), Init(a))
  }

  function Append(t: Option<string>, c: char): Option<string> {
    match t
    case None => None
    case Some(s) => Some(s + [c])
  }

  function Cost(script: seq<Edit>): nat {
    if script == [] then 0 else Cost(Init(script)) + if Last(script).Keep? then 0 else 1
  }

  // ---------- distance ----------

  function Min3(a: int, b: int, c: int): (m: int)
    ensures m <= a && m <= b && m <= c && (m == a || m == b || m == c)
  {
    var ab := if b < a then b else a;
    if c < ab then c else ab
  }

  function Dist(a: string, b: string): nat
    decreases |a| + |b|
  {
    if a == "" then |b|
    else if b == "" then |a|
    else
      Min3(Dist(a, Init(b)) + 1, Dist(Init(a), b) + 1,
           Dist(Init(a), Init(b)) + if Last(a) == Last(b) then 0 else 1)
  }

  /** A script that turns a into b at cost Dist(a, b). */
  function Cheapest(a: string, b: string): seq<Edit>
    decreases |a| + |b|
  {
    if a == "" && b == "" then []
    else if a == "" then Cheapest(a, Init(b)) + [Insert(Last(b))]
    else if b == "" then Cheapest(Init(a), b) + [Delete]
    else if Dist(a, b) == Dist(a, Init(b)) + 1 then Cheapest(a, Init(b)) + [Insert(Last(b))]
    else if Dist(a, b) == Dist(Init(a), b) + 1 then Cheapest(Init(a), b) + [Delete]
    else Cheapest(Init(a), Init(b)) + [if Last(a) == Last(b) then Keep else Substitute(Last(b))]
  }

  lemma {:induction false} CheapestWorks(a: string, b: string)
    ensures Run(Cheapest(a, b), a) == Some(b)
    ensures Cost(Cheapest(a, b)) == Dist(a, b)
    decreases |a| + |b|
  {
    assert b != "" ==> b == Init(b) + [Last(b)];
    var s := Cheapest(a, b);
    if a == "" && b == "" {
    } else if a == "" {
      CheapestWorks(a, Init(b));
      assert Init(s) == Cheapest(a, Init(b));
    } else if b == "" {
      CheapestWorks(Init(a), b);
      assert Init(s) == Cheapest(Init(a), b);
    } else if Dist(a, b) == Dist(a, Init(b)) + 1 {
      CheapestWorks(a, Init(b));
      assert Init(s) == Cheapest(a, Init(b));
    } else if Dist(a, b) == Dist(Init(a), b) + 1 {
      CheapestWorks(Init(a), b);
      assert Init(s) == Cheapest(Init(a), b);
    } else {
      CheapestWorks(Init(a), Init(b));
      assert Init(s) == Cheapest(Init(a), Init(b));
    }
  }

  /** No script is cheaper than Dist. */
  lemma {:induction false} NoScriptCheaper(script: seq<Edit>, a: string, b: string)
    requires Run(script, a) == Some(b)
    ensures Dist(a, b) <= Cost(script)
    decreases |script|
  {
    if script == [] {
    } else {
      var rest := Init(script);
      match Last(script)
      case Keep =>
        assert Init(b) == Run(rest, Init(a)).value;
        NoScriptCheaper(rest, Init(a), Init(b));
      case Substitute(c) =>
        assert Init(b) == Run(rest, Init(a)).value;
        NoScriptCheaper(rest, Init(a), Init(b));
      case Insert(c) =>
        assert Init(b) == Run(rest, a).value;
        NoScriptCheaper(rest, a, Init(b));
      case Delete =>
        NoScriptCheaper(rest, Init(a), b);
    }
  }

  /** Dist is the least cost of a script from a to b: it is reached, and never undercut. */
  ghost predicate IsLeastCost(d: nat, a: string, b: string) {
    && (exists s :: Run(s, a) == Some(b) && Cost(s) == d)
    && (forall s :: Run(s, a) == Some(b) ==> d <= Cost(s))
  }

  lemma DistIsLeastCost(a: string, b: string)
    ensures IsLeastCost(Dist(a, b), a, b)
  {
    CheapestWorks(a, b);
    forall s | Run(s, a) == Some(b) ensures Dist(a, b) <= Cost(s) { NoScriptCheaper(s, a, b); }
  }

  // ---------- metric laws ----------

  lemma {:induction false} DistSymmetric(a: string, b: string)
    ensures Dist(a, b) == Dist(b, a)
    decreases |a| + |b|
  {
    if a == "" {
    } else if b != "" {
      DistSymmetric(a, Init(b));
      DistSymmetric(Init(a), b);
      DistSymmetric(Init(a), Init(b));
    }
  }

  lemma {:induction false} DistZero(a: string, b: string)
    ensures Dist(a, b) == 0 <==> a == b
    decreases |a| + |b|
  {
    if a == "" {
    } else if b != "" {
      assert a == Init(a) + [Last(a)] && b == Init(b) + [Last(b)];
      DistZero(Init(a), Init(b));
    }
  }

  /** Runs two scripts one after the other as a single script. */
  function Compose(s: seq<Edit>, t: seq<Edit>): seq<Edit>
    decreases |s| + |t|
  {
    if t != [] && Last(t).Insert? then Compose(s, Init(t)) + [Last(t)]
    else if s != [] && Last(s).Delete? then Compose(Init(s), t) + [Delete]
    else if s == [] || t == [] then []
    else
      var rest := Compose(Init(s), Init(t));
      match (Last(s), Last(t))
      case (Insert(_), Delete) => rest
      case (_, Delete) => rest + [Delete]
      case (_, Keep) => rest + [Last(s)]
      case (Insert(_), Substitute(c)) => rest + [Insert(c)]
      case (_, _) => rest + [Last(t)]
  }

  lemma {:induction false} ComposeWorks(s: seq<Edit>, t: seq<Edit>, a: string)
    requires Run(s, a).Some? && Run(t, Run(s, a).value).Some?
    ensures Run(Compose(s, t), a) == Run(t, Run(s, a).value)
    ensures Cost(Compose(s, t)) <= Cost(s) + Cost(t)
    decreases |s| + |t|
  {
    var b := Run(s, a).value;
    if t != [] && Last(t).Insert? {
      ComposeWorks(s, Init(t), a);
      assert Init(Compose(s, t)) == Compose(s, Init(t));
    } else if s != [] && Last(s).Delete? {
      ComposeWorks(Init(s), t, Init(a));
      assert Init(Compose(s, t)) == Compose(Init(s), t);
    } else if s != [] && t != [] {
      var a' := if Last(s).Insert? then a else Init(a);
      assert Init(b) == Run(Init(s), a').value;
      ComposeWorks(Init(s), Init(t), a');
      if !(Last(s).Insert? && Last(t).Delete?) {
        assert Init(Compose(s, t)) == Compose(Init(s), Init(t));
      }
    }
  }

  lemma {:induction false} TriangleInequality(a: string, b: string, c: string)
    ensures Dist(a, c) <= Dist(a, b) + Dist(b, c)
  {
    CheapestWorks(a, b);
    CheapestWorks(b, c);
    ComposeWorks(Cheapest(a, b), Cheapest(b, c), a);
    NoScriptCheaper(Compose(Cheapest(a, b), Cheapest(b, c)), a, c);
  }

  // ---------- the two implementations ----------

  /** The distance between the first i characters of a and the first j of b. */
  ghost function Cell(a: string, b: string, i: nat, j: nat): (d: nat)
    requires i <= |a| && j <= |b|
    ensures i == 0 ==> d == j
    ensures j == 0 ==> d == i
    ensures i == |a| && j == |b| ==> d == Dist(a, b)
  {
    assert a[..|a|] == a && b[..|b|] == b;
    Dist(a[..i], b[..j])
  }

  lemma CellStep(a: string, b: string, i: nat, j: nat)
    requires 1 <= i <= |a| && 1 <= j <= |b|
    ensures Cell(a, b, i, j) ==
      Min3(Cell(a, b, i, j - 1) + 1, Cell(a, b, i - 1, j) + 1,
           Cell(a, b, i - 1, j - 1) + if a[i - 1] == b[j - 1] then 0 else 1)
  {
    assert Init(a[..i]) == a[..i - 1] && Init(b[..j]) == b[..j - 1];
  }

  /** The first n entries of a row hold row i of the distance table. */
  ghost predicate IsRow(row: seq<int>, n: nat, a: string, b: string, i: nat)
    requires i <= |a| && n <= |row| == |b| + 1
  {
    forall k :: 0 <= k < n ==> row[k] == Cell(a, b, i, k)
  }

  /** The server's editDistance. */
  method EditDistanceGo(a: string, b: string) returns (d: nat)
    ensures d == Dist(a, b)
  {
    var la, lb := |a|, |b|;
    if la == 0 { return lb; }
    if lb == 0 { return la; }
    var prev := new int[lb + 1];
    var curr := new int[lb + 1];
    for j := 0 to lb + 1
      invariant IsRow(prev[..], j, a, b, 0)
    {
      prev[j] := j;
    }
    for i := 1 to la + 1
      invariant prev != curr && fresh(prev) && fresh(curr)
      invariant prev.Length == curr.Length == lb + 1
      invariant IsRow(prev[..], lb + 1, a, b, i - 1)
    {
      curr[0] := i;
      for j := 1 to lb + 1
        invariant IsRow(curr[..], j, a, b, i)
        invariant IsRow(prev[..], lb + 1, a, b, i - 1)
      {
        var cost := 1;
        if a[i - 1] == b[j - 1] { cost := 0; }
        CellStep(a, b, i, j);
        curr[j] := Min3(curr[j - 1] + 1, prev[j] + 1, prev[j - 1] + cost);
      }
      prev, curr := curr, prev;
    }
    return prev[lb];
  }

  /** The web client's editDistance. */
  method EditDistanceTs(a: string, b: string) returns (d: nat)
    ensures d == Dist(a, b)
  {
    var m, n := |a|, |b|;
    if m == 0 { return n; }
    if n == 0 { return m; }
    var prev := new int[n + 1](j => j);
    var curr := new int[n + 1];
    for i := 1 to m + 1
      invariant prev != curr && fresh(prev) && fresh(curr)
      invariant prev.Length == curr.Length == n + 1
      invariant IsRow(prev[..], n + 1, a, b, i - 1)
    {
      curr[0] := i;
      for j := 1 to n + 1
        invariant IsRow(curr[..], j, a, b, i)
        invariant IsRow(prev[..], n + 1, a, b, i - 1)
      {
        var cost := if a[i - 1] == b[j - 1] then 0 else 1;
        CellStep(a, b, i, j);
        curr[j] := Min3(prev[j] + 1, curr[j - 1] + 1, prev[j - 1] + cost);
      }
      prev, curr := curr, prev;
    }
    return prev[n];
  }
}
