/** Go's sort package, as the function from a list to its unique sorted rearrangement. */
module Sorting {
  import opened Text

  ghost predicate TotalOrder<T(!new)>(le: (T, T) -> bool) {
    && (forall x, y :: le(x, y) || le(y, x))
    && (forall x, y :: le(x, y) && le(y, x) ==> x == y)
    && (forall x, y, z :: le(x, y) && le(y, z) ==> le(x, z))
  }

  ghost predicate Sorted<T>(s: seq<T>, le: (T, T) -> bool) {
    forall i, j :: 0 <= i < j < |s| ==> le(s[i], s[j])
  }

  function Insert<T>(x: T, s: seq<T>, le: (T, T) -> bool): seq<T> {
    if s == [] || le(x, s[0]) then [x] + s else [s[0]] + Insert(x, s[1..], le)
  }

  function Sort<T>(s: seq<T>, le: (T, T) -> bool): seq<T> {
    if s == [] then [] else Insert(s[0], Sort(s[1..], le), le)
  }

  lemma {:induction false} InsertElements<T>(x: T, s: seq<T>, le: (T, T) -> bool)
    ensures multiset(Insert(x, s, le)) == multiset{x} + multiset(s)
  {
    if s == [] || le(x, s[0]) {
    } else {
      InsertElements(x, s[1..], le);
      assert s == [s[0]] + s[1..];
    }
  }

  lemma {:induction false} InsertSorted<T(!new)>(x: T, s: seq<T>, le: (T, T) -> bool)
    requires TotalOrder(le) && Sorted(s, le)
    ensures Sorted(Insert(x, s, le), le)
  {
    if s == [] || le(x, s[0]) {
    } else {
      InsertSorted(x, s[1..], le);
      InsertElements(x, s[1..], le);
      InsertedAbove(s[0], x, s[1..], Insert(x, s[1..], le), le);
    }
  }

  lemma InsertedAbove<T(!new)>(low: T, x: T, s: seq<T>, inserted: seq<T>, le: (T, T) -> bool)
    requires multiset(inserted) == multiset{x} + multiset(s)
    requires le(low, x) && forall y :: y in s ==> le(low, y)
    ensures forall y :: y in inserted ==> le(low, y)
  {
    forall y | y in inserted ensures le(low, y) {
      assert y in multiset(inserted);
    }
  }

  lemma {:induction false} SortCorrect<T(!new)>(s: seq<T>, le: (T, T) -> bool)
    requires TotalOrder(le)
    ensures Sorted(Sort(s, le), le)
    ensures multiset(Sort(s, le)) == multiset(s)
    ensures |Sort(s, le)| == |s|
  {
    if s == [] {
    } else {
      SortCorrect(s[1..], le);
      InsertSorted(s[0], Sort(s[1..], le), le);
      InsertElements(s[0], Sort(s[1..], le), le);
      assert s == [s[0]] + s[1..];
    }
    assert |multiset(Sort(s, le))| == |multiset(s)|;
  }

  /** A sorted list is determined by what it contains, so every correct sort gives this result. */
  lemma {:induction false} SortedUnique<T(!new)>(a: seq<T>, b: seq<T>, le: (T, T) -> bool)
    requires TotalOrder(le) && Sorted(a, le) && Sorted(b, le)
    requires multiset(a) == multiset(b)
    ensures a == b
  {
    assert |multiset(a)| == |multiset(b)|;
    if a == [] {
    } else {
      assert a[0] in multiset(b) && b[0] in multiset(a);
      assert a[0] in b && b[0] in a;
      assert le(a[0], b[0]) && le(b[0], a[0]);
      assert a == [a[0]] + a[1..] && b == [b[0]] + b[1..];
      assert multiset(a[1..]) == multiset(a) - multiset{a[0]};
      SortedUnique(a[1..], b[1..], le);
    }
  }

  /** Where the first element of a sits in a rearrangement b of it. */
  lemma PickOut<T>(a: seq<T>, b: seq<T>) returns (k: nat)
    requires a != [] && multiset(a) == multiset(b)
    ensures k < |b| && b[k] == a[0]
    ensures b == b[..k] + [b[k]] + b[k + 1..]
    ensures multiset(a[1..]) == multiset(b[..k] + b[k + 1..])
  {
    assert a[0] in multiset(b);
    k :| 0 <= k < |b| && b[k] == a[0];
    Taken(a, 0);
    Taken(b, k);
    assert a[..0] + a[0 + 1..] == a[1..];
  }

  lemma Taken<T>(s: seq<T>, k: nat)
    requires k < |s|
    ensures s == s[..k] + [s[k]] + s[k + 1..]
    ensures multiset(s[..k] + s[k + 1..]) == multiset(s) - multiset{s[k]}
  {
    assert s == s[..k] + [s[k]] + s[k + 1..];
  }

  function Map<T, U>(f: T -> U, s: seq<T>): (t: seq<U>)
    ensures |t| == |s|
    ensures forall i :: 0 <= i < |s| ==> t[i] == f(s[i])
  {
    seq(|s|, i requires 0 <= i < |s| => f(s[i]))
  }

  lemma MapCons<T, U>(f: T -> U, s: seq<T>)
    requires s != []
    ensures Map(f, s) == [f(s[0])] + Map(f, s[1..])
  {
  }

  /** Mapping respects rearrangement. */
  lemma {:induction false} MapRearranged<T, U>(f: T -> U, a: seq<T>, b: seq<T>)
    requires multiset(a) == multiset(b)
    ensures multiset(Map(f, a)) == multiset(Map(f, b))
    decreases |a|
  {
    assert |multiset(a)| == |multiset(b)|;
    if a == [] {
      assert Map(f, a) == Map(f, b) == [];
    } else {
      var k := PickOut(a, b);
      MapRearranged(f, a[1..], b[..k] + b[k + 1..]);
      MapWithout(f, b, k);
      assert Map(f, a) == [f(a[0])] + Map(f, a[1..]);
    }
  }

  lemma MapWithout<T, U>(f: T -> U, b: seq<T>, k: nat)
    requires k < |b|
    ensures multiset(Map(f, b)) == multiset(Map(f, b[..k] + b[k + 1..])) + multiset{f(b[k])}
  {
    var m := Map(f, b);
    assert Map(f, b[..k] + b[k + 1..]) == m[..k] + m[k + 1..];
    assert m == m[..k] + [m[k]] + m[k + 1..];
  }

  lemma LexOrder()
    ensures TotalOrder(LexLe)
  {
    forall x, y ensures LexLe(x, y) || LexLe(y, x) { LexTotal(x, y); }
    forall x, y | LexLe(x, y) && LexLe(y, x) ensures x == y { LexAntisymmetric(x, y); }
    forall x, y, z | LexLe(x, y) && LexLe(y, z) ensures LexLe(x, z) { LexTransitive(x, y, z); }
  }

  // ---------- the elements of a set in order ----------

  ghost function Enumerate<T>(keys: set<T>): (ks: seq<T>)
    ensures multiset(ks) == multiset(keys)
    ensures |ks| == |keys|
  {
    if keys == {} then []
    else
      var k :| k in keys;
      assert multiset(keys) == multiset{k} + multiset(keys - {k});
      [k] + Enumerate(keys - {k})
  }

  ghost function InOrder<T>(keys: set<T>, le: (T, T) -> bool): seq<T> {
    Sort(Enumerate(keys), le)
  }

  lemma InOrderElements<T(!new)>(keys: set<T>, le: (T, T) -> bool)
    requires TotalOrder(le)
    ensures forall k :: k in InOrder(keys, le) <==> k in keys
    ensures multiset(InOrder(keys, le)) == multiset(keys)
    ensures Sorted(InOrder(keys, le), le)
  {
    SortCorrect(Enumerate(keys), le);
    forall k ensures k in InOrder(keys, le) <==> k in keys {
      assert k in InOrder(keys, le) <==> k in multiset(InOrder(keys, le));
    }
  }
}
