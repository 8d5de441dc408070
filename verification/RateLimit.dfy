/** The fixed-window rate limiter (internal/store/ratelimit.go). Times and windows are whole
    microseconds; a request's upsert is one atomic step. */
module RateLimit {
  import opened Text

  datatype Row = Row(count: nat, windowStart: int)

  /** The row that the upsert leaves behind. */
  function Upsert(row: Option<Row>, window: nat, now: int): Row {
    match row
    case None => Row(1, now)
    case Some(r) => if r.windowStart < now - window then Row(1, now) else Row(r.count + 1, r.windowStart)
  }

  function Lookup(rows: map<string, Row>, key: string): Option<Row> {
    if key in rows then Some(rows[key]) else None
  }

  class RateLimitEntries {
    var rows: map<string, Row>

    constructor ()
      ensures rows == map[]
    {
      rows := map[];
    }

    method ConsumeRateLimit(key: string, limit: int, window: nat, now: int) returns (allowed: bool)
      modifies this
      ensures rows == old(rows)[key := Upsert(Lookup(old(rows), key), window, now)]
      ensures allowed == (rows[key].count <= limit)
    {
      var count := 1;
      if key !in rows {
        rows := rows[key := Row(1, now)];
      } else {
        var r := rows[key];
        if r.windowStart < now - window {
          rows := rows[key := Row(1, now)];
        } else {
          count := r.count + 1;
          rows := rows[key := Row(count, r.windowStart)];
        }
      }
      allowed := count <= limit;
    }
  }

  // ---------- runs ----------

  /** The row after each of the requests of one key. */
  function Run(row: Option<Row>, window: nat, times: seq<int>): (rows: seq<Row>)
    ensures |rows| == |times|
    decreases |times|
  {
    if times == [] then []
    else
      var r := Upsert(row, window, times[0]);
      [r] + Run(Some(r), window, times[1..])
  }

  datatype Request = Request(key: string, time: int)

  /** The whole table after requests of many keys. */
  function RunAll(rows: map<string, Row>, window: nat, reqs: seq<Request>): map<string, Row>
    decreases |reqs|
  {
    if reqs == [] then rows
    else
      RunAll(rows[reqs[0].key := Upsert(Lookup(rows, reqs[0].key), window, reqs[0].time)], window, reqs[1..])
  }

  function TimesOf(reqs: seq<Request>, key: string): seq<int> {
    if reqs == [] then []
    else (if reqs[0].key == key then [reqs[0].time] else []) + TimesOf(reqs[1..], key)
  }

  /** Keys do not influence one another. */
  lemma {:induction false} KeysIndependent(rows: map<string, Row>, window: nat, reqs: seq<Request>, key: string)
    ensures var own := Run(Lookup(rows, key), window, TimesOf(reqs, key));
      Lookup(RunAll(rows, window, reqs), key) == if own == [] then Lookup(rows, key) else Some(own[|own| - 1])
    decreases |reqs|
  {
    if reqs == [] {
    } else {
      var q := reqs[0];
      var rows' := rows[q.key := Upsert(Lookup(rows, q.key), window, q.time)];
      KeysIndependent(rows', window, reqs[1..], key);
      var times := TimesOf(reqs[1..], key);
      if q.key == key {
        assert TimesOf(reqs, key)[1..] == times;
      } else {
        assert TimesOf(reqs, key) == times;
      }
    }
  }

  // ---------- the windows of a run ----------

  ghost predicate Ordered(times: seq<int>) {
    forall i, j :: 0 <= i < j < |times| ==> times[i] <= times[j]
  }

  /** How the i-th row arises from the one before. */
  lemma {:induction false} RunStep(row: Option<Row>, window: nat, times: seq<int>, i: nat)
    requires i < |times|
    ensures var rows := Run(row, window, times);
      rows[i] == Upsert(if i == 0 then row else Some(rows[i - 1]), window, times[i])
    decreases i
  {
    if i == 0 {
    } else {
      RunStep(Some(Upsert(row, window, times[0])), window, times[1..], i - 1);
    }
  }

  /** A row names a window that holds its request, and counts at least that request. */
  lemma {:induction false} RowHolds(window: nat, times: seq<int>, i: nat)
    requires Ordered(times) && i < |times|
    ensures var r := Run(None, window, times)[i];
      r.windowStart <= times[i] <= r.windowStart + window && r.count >= 1
    ensures var r := Run(None, window, times)[i];
      r.count == 1 ==> times[i] == r.windowStart
  {
    RunStep(None, window, times, i);
    if i == 0 {
    } else {
      RowHolds(window, times, i - 1);
    }
  }

  /** Later requests are in the same window, or in one that opened after the earlier request and
      after the earlier window had passed. */
  lemma {:induction false} LaterWindow(window: nat, times: seq<int>, i: nat, j: nat)
    requires Ordered(times) && i < j < |times|
    ensures var rows := Run(None, window, times);
      if rows[j].windowStart == rows[i].windowStart then rows[j].count > rows[i].count
      else rows[j].windowStart > rows[i].windowStart + window && rows[j].windowStart >= times[i]
    decreases j
  {
    RunStep(None, window, times, j);
    RowHolds(window, times, j - 1);
    RowHolds(window, times, j);
    RowHolds(window, times, i);
    if i == j - 1 {
    } else {
      LaterWindow(window, times, i, j - 1);
    }
  }

  // ---------- counting ----------

  /** How many of 0..n pass a test. */
  function Count(n: nat, test: nat -> bool): (k: nat)
    ensures k <= n
  {
    if n == 0 then 0 else Count(n - 1, test) + if test(n - 1) then 1 else 0
  }

  lemma {:induction false} CountCovered(n: nat, a: nat -> bool, b: nat -> bool, c: nat -> bool)
    requires forall i :: 0 <= i < n && a(i) ==> b(i) || c(i)
    ensures Count(n, a) <= Count(n, b) + Count(n, c)
  {
    if n == 0 {
    } else {
      CountCovered(n - 1, a, b, c);
    }
  }

  lemma {:induction false} CountNone(n: nat, a: nat -> bool)
    requires forall i :: 0 <= i < n ==> !a(i)
    ensures Count(n, a) == 0
  {
    if n == 0 {
    } else {
      CountNone(n - 1, a);
    }
  }

  lemma {:induction false} CountDrops(n: nat, a: nat -> bool, b: nat -> bool, k: nat)
    requires forall i :: 0 <= i < n && a(i) ==> b(i)
    requires k < n && b(k) && !a(k)
    ensures Count(n, a) < Count(n, b)
  {
    if k < n - 1 {
      CountDrops(n - 1, a, b, k);
    } else {
      CountCovered(n - 1, a, b, (i: nat) => false);
      CountNone(n - 1, (i: nat) => false);
    }
  }

  function AtLeastZero(n: int): nat { if n < 0 then 0 else n }

  function Min(a: int, b: int): int { if a < b then a else b }

  /** The i-th request is in the window that opened at s. */
  function InWindow(rows: seq<Row>, s: int): nat -> bool {
    (i: nat) => i < |rows| && rows[i].windowStart == s
  }

  /** ... and was admitted. */
  function AdmittedInWindow(rows: seq<Row>, limit: int, s: int): nat -> bool {
    (i: nat) => i < |rows| && rows[i].windowStart == s && rows[i].count <= limit
  }

  /** The i-th request was admitted in the time from t to t + length. */
  function AdmittedInTime(rows: seq<Row>, times: seq<int>, limit: int, t: int, length: nat): nat -> bool {
    (i: nat) => i < |rows| && i < |times| && rows[i].count <= limit && t <= times[i] <= t + length
  }

  /** Up to the n-th request, the window of the last request holds as many requests as that row
      counts. */
  lemma {:induction false} WindowCounted(window: nat, times: seq<int>, n: nat)
    requires Ordered(times) && 0 < n <= |times|
    ensures var rows := Run(None, window, times);
      Count(n, InWindow(rows, rows[n - 1].windowStart)) == rows[n - 1].count
    decreases n
  {
    var rows := Run(None, window, times);
    var s := rows[n - 1].windowStart;
    RunStep(None, window, times, n - 1);
    if n > 1 {
      WindowCounted(window, times, n - 1);
      RowHolds(window, times, n - 1);
      if rows[n - 2].windowStart != s {
        forall i | 0 <= i < n - 1 ensures !InWindow(rows, s)(i) {
          LaterWindow(window, times, i, n - 1);
          if i < n - 2 { LaterWindow(window, times, i, n - 2); }
          LaterWindow(window, times, n - 2, n - 1);
          RowHolds(window, times, n - 2);
        }
        CountNone(n - 1, InWindow(rows, s));
      }
    } else {
      CountNone(0, InWindow(rows, s));
    }
  }

  /** Every fixed window admits exactly as many requests as came, up to the limit. */
  lemma {:induction false} WindowAdmits(window: nat, times: seq<int>, limit: int, s: int, n: nat)
    requires Ordered(times) && n <= |times|
    ensures var rows := Run(None, window, times);
      Count(n, AdmittedInWindow(rows, limit, s)) == Min(Count(n, InWindow(rows, s)), AtLeastZero(limit))
    decreases n
  {
    var rows := Run(None, window, times);
    if n == 0 {
    } else {
      WindowAdmits(window, times, limit, s, n - 1);
      if rows[n - 1].windowStart == s { WindowCounted(window, times, n); }
    }
  }

  // ---------- any stretch of time ----------

  /** Three requests in a stretch as long as the window are in at most two windows; with two
      windows, the first window opened before the stretch. */
  lemma TwoWindows(window: nat, times: seq<int>, t: int, i: nat, j: nat)
    requires Ordered(times) && i < j < |times| && t <= times[i] && times[j] <= t + window
    ensures var rows := Run(None, window, times);
      rows[i].windowStart != rows[j].windowStart ==>
        rows[i].windowStart < t && rows[j].windowStart >= t
  {
    LaterWindow(window, times, i, j);
    RowHolds(window, times, i);
    RowHolds(window, times, j);
  }

  /** The row that opened the window of the i-th request. */
  lemma {:induction false} OpeningRow(window: nat, times: seq<int>, i: nat) returns (k: nat)
    requires Ordered(times) && i < |times|
    ensures k <= i && Run(None, window, times)[k] == Row(1, Run(None, window, times)[i].windowStart)
    ensures times[k] == Run(None, window, times)[i].windowStart
  {
    RunStep(None, window, times, i);
    RowHolds(window, times, i);
    if i > 0 && Run(None, window, times)[i].count != 1 {
      k := OpeningRow(window, times, i - 1);
    } else {
      k := i;
    }
  }

  /** All requests admitted in the stretch from t on are in window s. */
  ghost predicate OnlyWindow(window: nat, times: seq<int>, limit: int, t: int, s: int) {
    forall i :: 0 <= i < |times| && AdmittedInTime(Run(None, window, times), times, limit, t, window)(i)
      ==> Run(None, window, times)[i].windowStart == s
  }

  lemma WindowAtMostLimit(window: nat, times: seq<int>, limit: int, s: int)
    requires Ordered(times)
    ensures Count(|times|, AdmittedInWindow(Run(None, window, times), limit, s)) <= AtLeastZero(limit)
  {
    WindowAdmits(window, times, limit, s, |times|);
  }

  /** Requests of one window that came after it opened: the opening request was admitted too. */
  lemma LateInWindow(window: nat, times: seq<int>, limit: int, t: int, i: nat)
    requires Ordered(times) && i < |times| && limit >= 1
    requires Run(None, window, times)[i].windowStart < t
    ensures var rows := Run(None, window, times);
      var s := rows[i].windowStart;
      Count(|times|, (k: nat) => AdmittedInTime(rows, times, limit, t, window)(k) && rows[k].windowStart == s) < limit
  {
    var rows := Run(None, window, times);
    var s := rows[i].windowStart;
    var o := OpeningRow(window, times, i);
    var late := (k: nat) => AdmittedInTime(rows, times, limit, t, window)(k) && rows[k].windowStart == s;
    var all := AdmittedInWindow(rows, limit, s);
    forall k | 0 <= k < |times| && late(k) ensures all(k) {
      assert AdmittedInTime(rows, times, limit, t, window)(k);
      assert rows[k].windowStart == s && rows[k].count <= limit;
    }
    assert all(o) && !AdmittedInTime(rows, times, limit, t, window)(o) && !late(o);
    CountDrops(|times|, late, all, o);
    WindowAtMostLimit(window, times, limit, s);
  }

  /** In no stretch of time as long as the window are more than 2 * limit - 1 requests admitted. */
  lemma SlidingBound(window: nat, times: seq<int>, limit: int, t: int)
    requires Ordered(times)
    ensures Count(|times|, AdmittedInTime(Run(None, window, times), times, limit, t, window))
      <= AtLeastZero(2 * limit - 1)
  {
    var rows := Run(None, window, times);
    var hit := AdmittedInTime(rows, times, limit, t, window);
    if forall i :: 0 <= i < |times| ==> !hit(i) {
      CountNone(|times|, hit);
    } else {
      var i :| 0 <= i < |times| && hit(i);
      RowHolds(window, times, i);
      SlidingFrom(window, times, limit, t, i);
    }
  }

  lemma SlidingFrom(window: nat, times: seq<int>, limit: int, t: int, i: nat)
    requires Ordered(times) && i < |times| && limit >= 1
    requires AdmittedInTime(Run(None, window, times), times, limit, t, window)(i)
    ensures Count(|times|, AdmittedInTime(Run(None, window, times), times, limit, t, window)) <= 2 * limit - 1
  {
    var rows := Run(None, window, times);
    var hit, s := AdmittedInTime(rows, times, limit, t, window), rows[i].windowStart;
    if OnlyWindow(window, times, limit, t, s) {
      CountCovered(|times|, hit, AdmittedInWindow(rows, limit, s), (k: nat) => false);
      CountNone(|times|, (k: nat) => false);
      WindowAtMostLimit(window, times, limit, s);
    } else {
      var j :| 0 <= j < |times| && hit(j) && rows[j].windowStart != s;
      if i < j { SlidingTwo(window, times, limit, t, i, j); } else { SlidingTwo(window, times, limit, t, j, i); }
    }
  }

  lemma SlidingTwo(window: nat, times: seq<int>, limit: int, t: int, i: nat, j: nat)
    requires Ordered(times) && i < j < |times| && limit >= 1
    requires var hit := AdmittedInTime(Run(None, window, times), times, limit, t, window); hit(i) && hit(j)
    requires Run(None, window, times)[i].windowStart != Run(None, window, times)[j].windowStart
    ensures Count(|times|, AdmittedInTime(Run(None, window, times), times, limit, t, window)) <= 2 * limit - 1
  {
    var rows := Run(None, window, times);
    var hit, s, s' := AdmittedInTime(rows, times, limit, t, window), rows[i].windowStart, rows[j].windowStart;
    TwoWindows(window, times, t, i, j);
    LateInWindow(window, times, limit, t, i);
    WindowAtMostLimit(window, times, limit, s');
    forall k | 0 <= k < |times| && hit(k) ensures rows[k].windowStart == s || rows[k].windowStart == s' {
      if k < i { TwoWindows(window, times, t, k, i); TwoWindows(window, times, t, k, j); }
      if i < k { TwoWindows(window, times, t, i, k); }
      if k < j { TwoWindows(window, times, t, k, j); }
      if j < k { TwoWindows(window, times, t, j, k); }
      SameSide(window, times, t, i, j, k);
    }
    CountCovered(|times|, hit, (k: nat) => hit(k) && rows[k].windowStart == s, AdmittedInWindow(rows, limit, s'));
  }

  /** A third request of the stretch shares its window with one of the two. */
  lemma SameSide(window: nat, times: seq<int>, t: int, i: nat, j: nat, k: nat)
    requires Ordered(times) && i < j < |times| && k < |times|
    requires t <= times[i] && times[j] <= t + window && t <= times[k] <= t + window
    requires Run(None, window, times)[i].windowStart != Run(None, window, times)[j].windowStart
    ensures var rows := Run(None, window, times);
      rows[k].windowStart == rows[i].windowStart || rows[k].windowStart == rows[j].windowStart
  {
    TwoWindows(window, times, t, i, j);
    if k < i { TwoWindows(window, times, t, k, i); }
    if i < k { TwoWindows(window, times, t, i, k); }
    if k < j { TwoWindows(window, times, t, k, j); }
    if j < k { TwoWindows(window, times, t, j, k); }
  }

  // ---------- the bound is reached ----------

  /** One request at time 0, limit - 1 at the end of its window, limit just after it. */
  function Burst(window: nat, limit: nat): seq<int>
    requires limit >= 1
  {
    [0] + seq(limit - 1, _ => window) + seq(limit, _ => window + 1)
  }

  lemma {:induction false} BurstRows(window: nat, limit: nat, i: nat)
    requires limit >= 1 && i < 2 * limit
    ensures Run(None, window, Burst(window, limit))[i]
      == if i < limit then Row(i + 1, 0) else Row(i - limit + 1, window + 1)
  {
    RunStep(None, window, Burst(window, limit), i);
    if i == 0 {
    } else {
      BurstRows(window, limit, i - 1);
    }
  }

  lemma {:induction false} CountAll(n: nat, a: nat -> bool, from: nat)
    requires from <= n && forall i :: from <= i < n ==> a(i)
    ensures Count(n, a) >= n - from
  {
    if n == from {
    } else {
      CountAll(n - 1, a, from);
    }
  }

  lemma SlidingBoundReached(window: nat, limit: nat)
    requires window >= 1 && limit >= 1
    ensures var times := Burst(window, limit);
      Ordered(times)
      && Count(|times|, AdmittedInTime(Run(None, window, times), times, limit, window, window)) == 2 * limit - 1
  {
    var times := Burst(window, limit);
    var hit := AdmittedInTime(Run(None, window, times), times, limit, window, window);
    forall i | 1 <= i < |times| ensures hit(i) { BurstRows(window, limit, i); }
    CountAll(|times|, hit, 1);
    SlidingBound(window, times, limit, window);
  }

  // ---------- when it is a rolling window ----------

  /** Requests at one instant share a window when windows have no length. */
  lemma InstantWindow(times: seq<int>, limit: int, t: int)
    requires Ordered(times)
    ensures Count(|times|, AdmittedInTime(Run(None, 0, times), times, limit, t, 0)) <= AtLeastZero(limit)
  {
    var rows := Run(None, 0, times);
    var hit := AdmittedInTime(rows, times, limit, t, 0);
    forall i | 0 <= i < |times| && hit(i) ensures AdmittedInWindow(rows, limit, t)(i) { RowHolds(0, times, i); }
    CountCovered(|times|, hit, AdmittedInWindow(rows, limit, t), (k: nat) => false);
    CountNone(|times|, (k: nat) => false);
    WindowAtMostLimit(0, times, limit, t);
  }

  /** No stretch as long as the window admits more requests than the limit. */
  ghost predicate IsRolling(window: nat, limit: int) {
    forall times: seq<int>, t: int :: Ordered(times) ==>
      Count(|times|, AdmittedInTime(Run(None, window, times), times, limit, t, window)) <= AtLeastZero(limit)
  }

  /** The limiter is the rolling window it is documented to be if and only if the limit is at most one
      or windows have no length. */
  lemma RollingExactly(window: nat, limit: int)
    ensures IsRolling(window, limit) <==> limit <= 1 || window == 0
  {
    if limit <= 1 || window == 0 {
      forall times: seq<int>, t: int | Ordered(times)
        ensures Count(|times|, AdmittedInTime(Run(None, window, times), times, limit, t, window)) <= AtLeastZero(limit)
      {
        if window == 0 { InstantWindow(times, limit, t); } else { SlidingBound(window, times, limit, t); }
      }
    } else {
      SlidingBoundReached(window, limit);
      assert Ordered(Burst(window, limit));
    }
  }
}
