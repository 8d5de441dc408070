/** The string operations of Go and JavaScript that the modelled code calls. A `char` stands for
    one byte of a Go string, and for one code unit of a JavaScript string. */
module Text {

  datatype Option<+T> = None | Some(value: T)

  /** The elements that pass a test, in order. */
  function Filter<T(!new)>(s: seq<T>, keep: T -> bool): (kept: seq<T>)
    ensures |kept| <= |s|
    ensures forall x :: x in kept <==> x in s && keep(x)
  {
    if s == [] then []
    else
      assert s == [s[0]] + s[1..];
      (if keep(s[0]) then [s[0]] else []) + Filter(s[1..], keep)
  }

  lemma {:induction false} FilterSnoc<T(!new)>(s: seq<T>, x: T, keep: T -> bool)
    ensures Filter(s + [x], keep) == Filter(s, keep) + if keep(x) then [x] else []
  {
    if s == [] {
      assert s + [x] == [x];
    } else {
      assert (s + [x])[1..] == s[1..] + [x];
      FilterSnoc(s[1..], x, keep);
    }
  }

  /** Where a test passes. */
  function Places<T(!new)>(s: seq<T>, keep: T -> bool): set<int> {
    set i | 0 <= i < |s| && keep(s[i])
  }

  lemma PlacesSnoc<T(!new)>(s: seq<T>, x: T, keep: T -> bool)
    ensures Places(s + [x], keep) == Places(s, keep) + if keep(x) then {|s|} else {}
  {
  }

  /** As many are kept as there are places where the test passes. */
  lemma {:induction false} FilterSize<T(!new)>(s: seq<T>, keep: T -> bool)
    ensures |Filter(s, keep)| == |Places(s, keep)|
  {
    if s == [] {
      assert Places(s, keep) == {};
    } else {
      var init, x := s[..|s| - 1], s[|s| - 1];
      assert s == init + [x];
      FilterSize(init, keep);
      FilterSnoc(init, x, keep);
      PlacesSnoc(init, x, keep);
    }
  }

  /** What is kept stands behind the kept elements before it. */
  lemma {:induction false} FilterAt<T(!new)>(s: seq<T>, keep: T -> bool, i: nat)
    requires i < |s| && keep(s[i])
    ensures |Places(s[..i], keep)| < |Filter(s, keep)|
    ensures Filter(s, keep)[|Places(s[..i], keep)|] == s[i]
  {
    var init, x := s[..|s| - 1], s[|s| - 1];
    assert s == init + [x];
    FilterSnoc(init, x, keep);
    if i == |s| - 1 {
      FilterSize(init, keep);
    } else {
      FilterAt(init, keep, i);
      assert init[..i] == s[..i];
    }
  }

  lemma {:induction false} FilterNone<T(!new)>(s: seq<T>, keep: T -> bool)
    requires forall x :: x in s ==> !keep(x)
    ensures Filter(s, keep) == []
  {
    if s == [] {
    } else {
      FilterNone(s[1..], keep);
    }
  }

  lemma CutAround<T>(s: seq<T>, k: nat)
    requires k < |s|
    ensures s == s[..k] + ([s[k]] + s[k + 1..])
  {
  }

  lemma ConcatThree<T>(a: seq<T>, b: seq<T>, c: seq<T>)
    ensures a + b + c == a + (b + c)
  {
  }

  // ---------- white space ----------

  /** The ASCII white space that strings.TrimSpace, strings.Fields and String.trim remove. */
  predicate IsSpace(c: char) {
    c == ' ' || c == '\t' || c == '\n' || c == '\r' || c == '\U{0B}' || c == '\U{0C}'
  }

  predicate NoSpace(s: string) {
    forall i :: 0 <= i < |s| ==> !IsSpace(s[i])
  }

  predicate AllSpace(s: string) {
    forall i :: 0 <= i < |s| ==> IsSpace(s[i])
  }

  function TrimLeft(s: string): (t: string)
    ensures |t| <= |s|
  {
    if s != "" && IsSpace(s[0]) then TrimLeft(s[1..]) else s
  }

  function TrimRight(s: string): (t: string)
    ensures |t| <= |s|
  {
    if s != "" && IsSpace(s[|s| - 1]) then TrimRight(s[..|s| - 1]) else s
  }

  function Trim(s: string): string {
    TrimRight(TrimLeft(s))
  }

  /** A string that starts and ends with a visible character. */
  predicate Solid(s: string) {
    s != "" && !IsSpace(s[0]) && !IsSpace(s[|s| - 1])
  }

  lemma {:induction false} TrimLeftPadding(pad: string, s: string)
    requires AllSpace(pad)
    requires s == "" || !IsSpace(s[0])
    ensures TrimLeft(pad + s) == s
  {
    if pad == "" {
      assert pad + s == s;
    } else {
      assert (pad + s)[1..] == pad[1..] + s;
      TrimLeftPadding(pad[1..], s);
    }
  }

  lemma {:induction false} TrimRightPadding(s: string, pad: string)
    requires AllSpace(pad)
    requires s == "" || !IsSpace(s[|s| - 1])
    ensures TrimRight(s + pad) == s
  {
    if pad == "" {
      assert s + pad == s;
    } else {
      assert (s + pad)[..|s + pad| - 1] == s + pad[..|pad| - 1];
      TrimRightPadding(s, pad[..|pad| - 1]);
    }
  }

  lemma TrimPadded(before: string, s: string, after: string)
    requires AllSpace(before) && AllSpace(after) && Solid(s)
    ensures Trim(before + s + after) == s
  {
    assert before + s + after == before + (s + after);
    TrimLeftPadding(before, s + after);
    TrimRightPadding(s, after);
  }

  lemma TrimSolid(s: string)
    requires s == "" || Solid(s)
    ensures Trim(s) == s
  {
  }

  lemma {:induction false} TrimLeftShape(s: string)
    ensures TrimLeft(s) == "" || !IsSpace(TrimLeft(s)[0])
    ensures exists k :: 0 <= k <= |s| && TrimLeft(s) == s[k..] && AllSpace(s[..k])
  {
    if s != "" && IsSpace(s[0]) {
      TrimLeftShape(s[1..]);
      var k :| 0 <= k <= |s[1..]| && TrimLeft(s[1..]) == s[1..][k..] && AllSpace(s[1..][..k]);
      SpaceCons(s, k);
    } else {
      assert s == s[0..] && AllSpace(s[..0]);
    }
  }

  lemma SpaceCons(s: string, k: nat)
    requires k < |s| && IsSpace(s[0]) && AllSpace(s[1..][..k])
    ensures s[1..][k..] == s[k + 1..] && AllSpace(s[..k + 1])
  {
    assert s[..k + 1] == [s[0]] + s[1..][..k];
  }

  lemma {:induction false} TrimRightShape(s: string)
    ensures TrimRight(s) == "" || (!IsSpace(TrimRight(s)[|TrimRight(s)| - 1]) && TrimRight(s)[0] == s[0])
    ensures TrimRight(s) == s[..|TrimRight(s)|]
  {
    if s == "" {
    } else if IsSpace(s[|s| - 1]) {
      var t := s[..|s| - 1];
      TrimRightShape(t);
      assert t[..|TrimRight(t)|] == s[..|TrimRight(t)|];
    }
  }

  lemma TrimShape(s: string)
    ensures Trim(s) == "" || Solid(Trim(s))
  {
    TrimLeftShape(s);
    TrimRightShape(TrimLeft(s));
  }

  lemma TrimIdempotent(s: string)
    ensures Trim(Trim(s)) == Trim(s)
  {
    TrimShape(s);
    TrimSolid(Trim(s));
  }

  // ---------- split and join ----------

  predicate Lacks(s: string, c: char) {
    forall i :: 0 <= i < |s| ==> s[i] != c
  }

  function Split(s: string, sep: char): (parts: seq<string>)
    ensures |parts| >= 1
  {
    if s == "" then [""]
    else
      var rest := Split(s[1..], sep);
      if s[0] == sep then [""] + rest else [[s[0]] + rest[0]] + rest[1..]
  }

  function Join(parts: seq<string>, sep: string): string {
    if parts == [] then ""
    else if |parts| == 1 then parts[0]
    else parts[0] + sep + Join(parts[1..], sep)
  }

  lemma {:induction false} SplitWhole(s: string, sep: char)
    requires Lacks(s, sep)
    ensures Split(s, sep) == [s]
  {
    if s == "" {
    } else {
      SplitWhole(s[1..], sep);
      assert [s[0]] + s[1..] == s;
    }
  }

  lemma {:induction false} SplitCut(a: string, b: string, sep: char)
    ensures Split(a + [sep] + b, sep) == Split(a, sep) + Split(b, sep)
  {
    var s := a + [sep] + b;
    if a == "" {
      assert s[0] == sep && s[1..] == b;
    } else {
      var tail := a[1..] + [sep] + b;
      assert s[0] == a[0] && s[1..] == tail;
      SplitCut(a[1..], b, sep);
      PrependCut(Split(a[1..], sep), Split(b, sep), a[0]);
      if a[0] == sep {
        assert Split(s, sep) == [""] + Split(tail, sep);
      }
    }
  }

  lemma PrependCut(left: seq<string>, right: seq<string>, c: char)
    requires left != []
    ensures [[c] + (left + right)[0]] + (left + right)[1..] == [[c] + left[0]] + left[1..] + right
    ensures [""] + (left + right) == ([""] + left) + right
  {
    assert (left + right)[0] == left[0] && (left + right)[1..] == left[1..] + right;
  }

  lemma {:induction false} SplitJoin(parts: seq<string>, sep: char)
    requires parts != []
    requires forall p :: p in parts ==> Lacks(p, sep)
    ensures Split(Join(parts, [sep]), sep) == parts
  {
    SplitWhole(parts[0], sep);
    if |parts| == 1 {
    } else {
      SplitJoin(parts[1..], sep);
      SplitCut(parts[0], Join(parts[1..], [sep]), sep);
    }
  }

  lemma {:induction false} SplitLacks(s: string, sep: char)
    ensures forall p :: p in Split(s, sep) ==> Lacks(p, sep)
  {
    if s == "" {
    } else {
      SplitLacks(s[1..], sep);
      var rest := Split(s[1..], sep);
      forall p | p in Split(s, sep) ensures Lacks(p, sep) {
        if s[0] != sep {
          assert Lacks(rest[0], sep);
          assert forall q :: q in rest[1..] ==> q in rest;
        }
      }
    }
  }

  lemma JoinCons(part: string, parts: seq<string>, sep: string)
    requires parts != []
    ensures Join([part] + parts, sep) == part + sep + Join(parts, sep)
  {
    assert ([part] + parts)[1..] == parts;
  }

  lemma {:induction false} JoinAppend(a: seq<string>, b: seq<string>, sep: string)
    requires a != [] && b != []
    ensures Join(a + b, sep) == Join(a, sep) + sep + Join(b, sep)
  {
    if |a| == 1 {
      assert (a + b)[1..] == b;
    } else {
      assert (a + b)[1..] == a[1..] + b;
      JoinAppend(a[1..], b, sep);
    }
  }

  // ---------- search and replace ----------

  /** The index of the first `c`, or -1. */
  function IndexOf(s: string, c: char): (k: int)
    ensures -1 <= k < |s|
    ensures k < 0 <==> Lacks(s, c)
    ensures k >= 0 ==> s[k] == c && Lacks(s[..k], c)
  {
    if s == "" then -1
    else if s[0] == c then 0
    else
      var k := IndexOf(s[1..], c);
      assert s == [s[0]] + s[1..];
      if k < 0 then -1 else assert s[..k + 1] == [s[0]] + s[1..][..k]; k + 1
  }

  lemma {:induction false} IndexOfAt(s: string, c: char, k: nat)
    requires k < |s| && s[k] == c && Lacks(s[..k], c)
    ensures IndexOf(s, c) == k
  {
    if k == 0 {
    } else {
      assert s[..k][0] == s[0];
      assert s[1..][..k - 1] == s[..k][1..];
      IndexOfAt(s[1..], c, k - 1);
    }
  }

  /** strings.ReplaceAll: non-overlapping occurrences, from the left. */
  function ReplaceAll(s: string, what: string, with: string): string
    requires what != ""
  {
    if |s| < |what| then s
    else if s[..|what|] == what then with + ReplaceAll(s[|what|..], what, with)
    else [s[0]] + ReplaceAll(s[1..], what, with)
  }

  predicate Occurs(s: string, what: string) {
    exists k :: 0 <= k <= |s| && what <= s[k..]
  }

  lemma {:induction false} ReplaceAbsent(s: string, what: string, with: string)
    requires what != "" && !Occurs(s, what)
    ensures ReplaceAll(s, what, with) == s
  {
    if |s| < |what| {
    } else {
      assert s[0..] == s;
      assert !(what <= s);
      forall k | 0 <= k <= |s[1..]| ensures !(what <= s[1..][k..]) {
        assert s[1..][k..] == s[k + 1..];
      }
      ReplaceAbsent(s[1..], what, with);
    }
  }

  /** strings.ReplaceAll(s, c, "") for a one-character c. */
  function Without(s: string, c: char): string {
    if s == "" then "" else (if s[0] == c then "" else [s[0]]) + Without(s[1..], c)
  }

  /** Drops every trailing '+' and '#', like strings.TrimRight(s, "+#"). */
  function TrimMarks(s: string): (t: string)
    ensures t <= s
    ensures t == "" || (t[|t| - 1] != '+' && t[|t| - 1] != '#')
    ensures forall i :: |t| <= i < |s| ==> s[i] == '+' || s[i] == '#'
  {
    if s != "" && (s[|s| - 1] == '+' || s[|s| - 1] == '#') then TrimMarks(s[..|s| - 1]) else s
  }

  /** The space-separated words of s, like strings.Fields. */
  function Fields(s: string): seq<string>
    decreases |s|
  {
    var t := TrimLeft(s);
    if t == "" then []
    else
      var k := WordLength(t);
      if k == 0 then [] else [t[..k]] + Fields(t[k..])
  }

  function WordLength(s: string): (k: nat)
    ensures k <= |s|
    ensures s != "" && !IsSpace(s[0]) ==> k > 0
  {
    if s == "" || IsSpace(s[0]) then 0 else 1 + WordLength(s[1..])
  }

  lemma {:induction false} WordLengthOf(w: string, rest: string)
    requires w != "" && NoSpace(w)
    requires rest == "" || IsSpace(rest[0])
    ensures WordLength(w + rest) == |w|
  {
    assert (w + rest)[1..] == w[1..] + rest;
    if |w| > 1 { WordLengthOf(w[1..], rest); } else { assert w[1..] + rest == rest; }
  }

  lemma FieldsCons(w: string, rest: string)
    requires w != "" && NoSpace(w)
    ensures Fields(w + " " + rest) == [w] + Fields(rest)
    ensures Fields(w) == [w]
  {
    var s := w + " " + rest;
    assert s == w + (" " + rest);
    WordLengthOf(w, " " + rest);
    WordLengthOf(w, "");
    assert w + "" == w;
    assert TrimLeft(s) == s && s[..|w|] == w && s[|w|..] == " " + rest;
    assert (" " + rest)[1..] == rest;
    assert TrimLeft(" " + rest) == TrimLeft(rest);
    assert Fields(" " + rest) == Fields(rest);
    assert w[..|w|] == w && w[|w|..] == "" && Fields("") == [];
  }

  lemma {:induction false} FieldsJoin(words: seq<string>)
    requires forall w :: w in words ==> w != "" && NoSpace(w)
    ensures Fields(Join(words, " ")) == words
  {
    if words == [] {
    } else {
      assert words[0] in words && forall w :: w in words[1..] ==> w in words;
      FieldsCons(words[0], Join(words[1..], " "));
      FieldsJoin(words[1..]);
      assert words == [words[0]] + words[1..];
    }
  }

  /** Six words with single spaces between them. */
  lemma SixFields(a: string, b: string, c: string, d: string, e: string, f: string)
    requires forall w :: w in [a, b, c, d, e, f] ==> w != "" && NoSpace(w)
    ensures Fields(a + " " + (b + " " + (c + " " + (d + " " + (e + " " + f))))) == [a, b, c, d, e, f]
  {
    assert [a, b, c, d, e, f] == [a] + [b, c, d, e, f];
    assert [b, c, d, e, f] == [b] + [c, d, e, f];
    assert [c, d, e, f] == [c] + [d, e, f];
    JoinCons(e, [f], " ");
    JoinCons(d, [e] + [f], " ");
    JoinCons(c, [d] + ([e] + [f]), " ");
    JoinCons(b, [c] + ([d] + ([e] + [f])), " ");
    JoinCons(a, [b] + ([c] + ([d] + ([e] + [f]))), " ");
    assert [d] + ([e] + [f]) == [d, e, f];
    FieldsJoin([a, b, c, d, e, f]);
  }

  // ---------- decimal numbers ----------

  const MAX_INT64: int := 0x7FFF_FFFF_FFFF_FFFF

  /** Two's-complement wrap-around of Go's 64-bit int. */
  function Wrap64(n: int): (w: int)
    ensures -MAX_INT64 - 1 <= w <= MAX_INT64
    ensures -MAX_INT64 - 1 <= n <= MAX_INT64 ==> w == n
  {
    (n + MAX_INT64 + 1) % (2 * (MAX_INT64 + 1)) - MAX_INT64 - 1
  }

  predicate IsDigit(c: char) { '0' <= c <= '9' }

  predicate AllDigits(s: string) {
    forall i :: 0 <= i < |s| ==> IsDigit(s[i])
  }

  function Digit(d: int): (c: char)
    requires 0 <= d < 10
    ensures IsDigit(c) && c as int - '0' as int == d
  {
    ('0' as int + d) as char
  }

  /** The decimal form of a natural number, without leading zeros. */
  function Decimal(n: nat): (s: string)
    ensures s != "" && AllDigits(s)
  {
    if n < 10 then [Digit(n)] else Decimal(n / 10) + [Digit(n % 10)]
  }

  /** The %d form of an int. */
  function FormatInt(n: int): string {
    if n < 0 then "-" + Decimal(-n) else Decimal(n)
  }

  function Value(s: string): nat
    requires AllDigits(s)
  {
    if s == "" then 0
    else 10 * Value(s[..|s| - 1]) + (s[|s| - 1] as int - '0' as int)
  }

  lemma {:induction false} ValueDecimal(n: nat)
    ensures Value(Decimal(n)) == n
  {
    if n >= 10 {
      ValueDecimal(n / 10);
      assert Decimal(n)[..|Decimal(n)| - 1] == Decimal(n / 10);
    } else {
      assert Decimal(n)[..0] == "";
    }
  }

  // ---------- order on strings ----------

  /** Byte-wise lexicographic order, Go's `<=` on strings. */
  predicate LexLe(a: string, b: string) {
    a == "" || (b != "" && (a[0] < b[0] || (a[0] == b[0] && LexLe(a[1..], b[1..]))))
  }

  lemma {:induction false} LexTotal(a: string, b: string)
    ensures LexLe(a, b) || LexLe(b, a)
  {
    if a == "" {
    } else if b != "" && a[0] == b[0] {
      LexTotal(a[1..], b[1..]);
    }
  }

  lemma {:induction false} LexAntisymmetric(a: string, b: string)
    requires LexLe(a, b) && LexLe(b, a)
    ensures a == b
  {
    if a == "" {
    } else {
      LexAntisymmetric(a[1..], b[1..]);
      assert a == [a[0]] + a[1..] && b == [b[0]] + b[1..];
    }
  }

  lemma {:induction false} LexTransitive(a: string, b: string, c: string)
    requires LexLe(a, b) && LexLe(b, c)
    ensures LexLe(a, c)
  {
    if a == "" {
    } else if a[0] == b[0] == c[0] {
      LexTransitive(a[1..], b[1..], c[1..]);
    }
  }
}
