/** The %clk comments that carry clock times (chesskit/pgn.go). */
module Clock {
  import opened Text

  // ---------- writing ----------

  function TwoDigits(n: nat): (s: string)
    requires n < 100
    ensures AllDigits(s) && |s| == 2
  {
    [Digit(n / 10), Digit(n % 10)]
  }

  /** Seconds as h:mm:ss; negative times are written as zero. */
  function FormatClock(sec: int): string {
    var s := if sec < 0 then 0 else sec;
    Decimal(s / 3600) + ":" + TwoDigits(s % 3600 / 60) + ":" + TwoDigits(s % 60)
  }

  // ---------- reading ----------

  predicate IsReSpace(c: char) {
    c == ' ' || c == '\t' || c == '\n' || c == '\r' || c == '\U{0C}'
  }

  function SkipReSpace(s: string): (t: string)
    ensures |t| <= |s|
  {
    if s != "" && IsReSpace(s[0]) then SkipReSpace(s[1..]) else s
  }

  function DigitsBefore(s: string, stop: char): Option<(string, string)>
    ensures DigitsBefore(s, stop).Some? ==>
      AllDigits(DigitsBefore(s, stop).value.0) && DigitsBefore(s, stop).value.0 != ""
  {
    if s == "" then None
    else if IsDigit(s[0]) then
      if |s| > 1 && s[1] == stop then Some((s[..1], s[2..]))
      else match DigitsBefore(s[1..], stop)
        case None => None
        case Some((d, rest)) => Some((s[..1] + d, rest))
    else None
  }

  /** [0-5]?\d */
  predicate IsSixtieth(d: string) {
    |d| == 1 || (|d| == 2 && '0' <= d[0] <= '5')
  }

  /** strconv.Atoi on digits: saturates at the largest int. */
  function AtoiDigits(d: string): int
    requires AllDigits(d)
  {
    if Value(d) > MAX_INT64 then MAX_INT64 else Value(d)
  }

  /** (\d+):([0-5]?\d):([0-5]?\d)\] at the start of s, as seconds. */
  function ReadClock(s: string): Option<int> {
    match DigitsBefore(s, ':')
    case None => None
    case Some((h, s1)) =>
      match DigitsBefore(s1, ':')
      case None => None
      case Some((m, s2)) =>
        match DigitsBefore(s2, ']')
        case None => None
        case Some((sec, _)) =>
          if IsSixtieth(m) && IsSixtieth(sec) then Some(Seconds(h, m, sec)) else None
  }

  function Seconds(h: string, m: string, sec: string): int
    requires AllDigits(h) && AllDigits(m) && AllDigits(sec)
  {
    Wrap64(AtoiDigits(h) * 3600 + AtoiDigits(m) * 60 + AtoiDigits(sec))
  }

  /** The pattern \[%clk\s+(\d+):([0-5]?\d):([0-5]?\d)\] at the start of s. */
  function ClockAt(s: string): Option<int> {
    if !("[%clk" <= s) || SkipReSpace(s[5..]) == s[5..] then None
    else ReadClock(SkipReSpace(s[5..]))
  }

  /** The first clock annotation in a comment. */
  function ClockFromComment(comment: string): Option<int> {
    if comment == "" then None
    else if ClockAt(comment).Some? then ClockAt(comment)
    else ClockFromComment(comment[1..])
  }

  // ---------- round trip ----------

  lemma {:induction false} DigitsBeforeWhole(d: string, stop: char, rest: string)
    requires d != "" && AllDigits(d) && !IsDigit(stop)
    ensures DigitsBefore(d + [stop] + rest, stop) == Some((d, rest))
  {
    var s := d + [stop] + rest;
    if |d| == 1 {
      assert s[..1] == d && s[2..] == rest && s[1] == stop;
    } else {
      assert s[1..] == d[1..] + [stop] + rest;
      assert s[1] == d[1];
      DigitsBeforeWhole(d[1..], stop, rest);
      assert s[..1] + d[1..] == d;
    }
  }

  lemma TwoDigitsValue(n: nat)
    requires n < 60
    ensures Value(TwoDigits(n)) == n && IsSixtieth(TwoDigits(n))
  {
    var s := TwoDigits(n);
    assert s[..1] == [Digit(n / 10)];
    assert s[..1][..0] == "";
    assert Value(s[..1]) == n / 10;
  }

  lemma AnnotationText(clock: string)
    requires clock != "" && IsDigit(clock[0])
    ensures "[%clk" <= "[%clk " + clock + "]"
    ensures ("[%clk " + clock + "]")[5..] == " " + (clock + "]")
    ensures SkipReSpace(" " + (clock + "]")) == clock + "]"
  {
    var text := "[%clk " + clock + "]";
    assert text == "[%clk" + (" " + (clock + "]"));
    assert (" " + (clock + "]"))[1..] == clock + "]";
    assert (clock + "]")[0] == clock[0];
  }

  lemma ClockFields(h: string, m: string, s: string)
    requires AllDigits(h) && AllDigits(m) && AllDigits(s) && h != "" && m != "" && s != ""
    ensures DigitsBefore(h + ":" + m + ":" + s + "]", ':') == Some((h, m + ":" + s + "]"))
    ensures DigitsBefore(m + ":" + s + "]", ':') == Some((m, s + "]"))
    ensures DigitsBefore(s + "]", ']') == Some((s, ""))
  {
    assert h + ":" + m + ":" + s + "]" == h + ":" + (m + ":" + s + "]");
    assert m + ":" + s + "]" == m + ":" + (s + "]");
    assert s + "]" == s + "]" + "";
    DigitsBeforeWhole(h, ':', m + ":" + s + "]");
    DigitsBeforeWhole(m, ':', s + "]");
    DigitsBeforeWhole(s, ']', "");
  }

  lemma SecondsOf(n: nat)
    requires n <= MAX_INT64
    ensures Seconds(Decimal(n / 3600), TwoDigits(n % 3600 / 60), TwoDigits(n % 60)) == n
  {
    ValueDecimal(n / 3600);
    TwoDigitsValue(n % 3600 / 60);
    TwoDigitsValue(n % 60);
  }

  /** A written clock is read back, negative times as zero. */
  lemma ClockRoundTrip(sec: int)
    requires sec <= MAX_INT64
    ensures ClockFromComment("[%clk " + FormatClock(sec) + "]") == Some(if sec < 0 then 0 else sec)
  {
    var n := if sec < 0 then 0 else sec;
    var h, m, s := Decimal(n / 3600), TwoDigits(n % 3600 / 60), TwoDigits(n % 60);
    var clock := h + ":" + m + ":" + s;
    assert clock[0] == h[0];
    AnnotationText(clock);
    assert clock + "]" == h + ":" + m + ":" + s + "]";
    ClockFields(h, m, s);
    SecondsOf(n);
    TwoDigitsValue(n % 3600 / 60);
    TwoDigitsValue(n % 60);
    assert ReadClock(clock + "]") == Some(n);
  }

  // ---------- the annotation among other text ----------

  /** s starts with an annotation: white space before the hours, one or two digits below sixty for the
      minutes and for the seconds, and anything behind the bracket. */
  ghost predicate IsAnnotation(s: string, gap: string, h: string, m: string, sec: string, rest: string) {
    && s == "[%clk" + (gap + (h + [':'] + (m + [':'] + (sec + [']'] + rest))))
    && gap != "" && (forall i :: 0 <= i < |gap| ==> IsReSpace(gap[i]))
    && h != "" && AllDigits(h) && BelowSixty(m) && BelowSixty(sec)
  }

  predicate BelowSixty(d: string) {
    AllDigits(d) && 1 <= |d| <= 2 && Value(d) < 60
  }

  lemma SixtiethBelow(d: string)
    requires AllDigits(d) && d != ""
    ensures IsSixtieth(d) <==> BelowSixty(d)
  {
    assert d[..1][..0] == "" && Value(d[..1][..0]) == 0;
    if |d| == 2 { assert Value(d) == 10 * Value(d[..1]) + (d[1] as int - '0' as int); }
  }

  lemma {:induction false} SkipsGap(gap: string, rest: string)
    requires (forall i :: 0 <= i < |gap| ==> IsReSpace(gap[i])) && (rest == "" || !IsReSpace(rest[0]))
    ensures SkipReSpace(gap + rest) == rest
  {
    if gap == "" {
      assert gap + rest == rest;
    } else {
      assert (gap + rest)[1..] == gap[1..] + rest;
      SkipsGap(gap[1..], rest);
    }
  }

  /** What is skipped is white space. */
  lemma {:induction false} GapOf(s: string) returns (gap: string)
    ensures s == gap + SkipReSpace(s) && forall i :: 0 <= i < |gap| ==> IsReSpace(gap[i])
    ensures SkipReSpace(s) == "" || !IsReSpace(SkipReSpace(s)[0])
  {
    if s == "" || !IsReSpace(s[0]) {
      gap := "";
    } else {
      var more := GapOf(s[1..]);
      assert s == [s[0]] + s[1..];
      gap := [s[0]] + more;
      forall i | 0 <= i < |gap| ensures IsReSpace(gap[i]) { if i > 0 { assert gap[i] == more[i - 1]; } }
    }
  }

  lemma {:induction false} DigitsFound(s: string, stop: char)
    requires DigitsBefore(s, stop).Some?
    ensures var (d, rest) := DigitsBefore(s, stop).value; s == d + [stop] + rest
  {
    if |s| > 1 && s[1] == stop {
      assert s == s[..1] + [stop] + s[2..];
    } else {
      DigitsFound(s[1..], stop);
      assert s == s[..1] + s[1..];
    }
  }

  /** A clock is read at the start of a text if and only if an annotation stands there; it is the time
      in seconds, within Go's int. */
  lemma ClockAtExactly(s: string, v: int)
    ensures ClockAt(s) == Some(v)
      <==> exists gap, h, m, sec, rest ::
             IsAnnotation(s, gap, h, m, sec, rest) && v == Seconds(h, m, sec)
  {
    if ClockAt(s) == Some(v) {
      var gap, h, m, sec, rest := AnnotationAt(s);
      assert IsAnnotation(s, gap, h, m, sec, rest);
    }
    if gap, h, m, sec, rest :| IsAnnotation(s, gap, h, m, sec, rest) && v == Seconds(h, m, sec) {
      AnnotationRead(s, gap, h, m, sec, rest);
    }
  }

  lemma AnnotationRead(s: string, gap: string, h: string, m: string, sec: string, rest: string)
    requires IsAnnotation(s, gap, h, m, sec, rest)
    ensures ClockAt(s) == Some(Seconds(h, m, sec))
  {
    var s2 := sec + [']'] + rest;
    var s1 := m + [':'] + s2;
    var s0 := h + [':'] + s1;
    assert s[5..] == gap + s0 && "[%clk" <= s;
    assert IsDigit(s0[0]) by { assert s0[0] == h[0]; }
    SkipsGap(gap, s0);
    DigitsBeforeWhole(h, ':', s1);
    DigitsBeforeWhole(m, ':', s2);
    DigitsBeforeWhole(sec, ']', rest);
    SixtiethBelow(m);
    SixtiethBelow(sec);
  }

  lemma AnnotationAt(s: string) returns (gap: string, h: string, m: string, sec: string, rest: string)
    requires ClockAt(s).Some?
    ensures IsAnnotation(s, gap, h, m, sec, rest) && ClockAt(s).value == Seconds(h, m, sec)
  {
    gap := GapOf(s[5..]);
    var s0 := SkipReSpace(s[5..]);
    DigitsFound(s0, ':');
    h := DigitsBefore(s0, ':').value.0;
    var s1 := DigitsBefore(s0, ':').value.1;
    DigitsFound(s1, ':');
    m := DigitsBefore(s1, ':').value.0;
    var s2 := DigitsBefore(s1, ':').value.1;
    DigitsFound(s2, ']');
    sec := DigitsBefore(s2, ']').value.0;
    rest := DigitsBefore(s2, ']').value.1;
    SixtiethBelow(m);
    SixtiethBelow(sec);
    assert s == s[..5] + s[5..] && s[..5] == "[%clk";
  }

  /** The clock stands at k, and none before it. */
  ghost predicate FirstClockAt(comment: string, k: nat, v: int) {
    k <= |comment| && ClockAt(comment[k..]) == Some(v) && forall j :: 0 <= j < k ==> ClockAt(comment[j..]) == None
  }

  /** The clock of a comment is the first annotation anywhere in it. */
  lemma {:induction false} ClockIsFirst(comment: string, v: int)
    ensures ClockFromComment(comment) == Some(v) <==> exists k: nat :: FirstClockAt(comment, k, v)
    ensures ClockFromComment(comment) == None <==> forall k: nat :: k <= |comment| ==> ClockAt(comment[k..]) == None
  {
    assert comment[0..] == comment;
    if comment == "" {
    } else if ClockAt(comment).Some? {
      if ClockAt(comment) == Some(v) { assert FirstClockAt(comment, 0, v); }
    } else {
      ClockIsFirst(comment[1..], v);
      forall k: nat | 0 < k <= |comment| ensures comment[k..] == comment[1..][k - 1..] {}
      if k: nat :| FirstClockAt(comment[1..], k, v) {
        assert comment[1..][k..] == comment[k + 1..];
        FirstClockShifts(comment, k, v);
      }
      if k: nat :| FirstClockAt(comment, k, v) {
        assert FirstClockAt(comment[1..], k - 1, v) by {
          forall j | 0 <= j < k - 1 ensures ClockAt(comment[1..][j..]) == None {
            assert comment[1..][j..] == comment[j + 1..];
          }
        }
      }
    }
  }

  lemma FirstClockShifts(comment: string, k: nat, v: int)
    requires comment != "" && ClockAt(comment) == None && FirstClockAt(comment[1..], k, v)
    ensures FirstClockAt(comment, k + 1, v)
  {
    assert comment[1..][k..] == comment[k + 1..] && comment[0..] == comment;
    forall j | 0 <= j < k + 1 ensures ClockAt(comment[j..]) == None {
      if j > 0 { assert comment[1..][j - 1..] == comment[j..]; }
    }
  }

  /** A written clock is read back whatever stands around it, unless another annotation begins before
      it. */
  lemma {:induction false} ClockAmidText(before: string, sec: int, after: string)
    requires sec <= MAX_INT64 && !Occurs(before, "[%clk")
    ensures ClockFromComment(before + ("[%clk " + FormatClock(sec) + "]" + after)) == Some(if sec < 0 then 0 else sec)
  {
    var clock := "[%clk " + FormatClock(sec) + "]" + after;
    var text := before + clock;
    if before == "" {
      assert text == clock && before[0..] == before;
      ClockThenText(sec, after);
    } else {
      assert text[1..] == before[1..] + clock;
      NoStraddle(before, clock);
      forall k | 0 <= k <= |before[1..]| ensures !("[%clk" <= before[1..][k..]) {
        assert before[1..][k..] == before[k + 1..];
      }
      ClockAmidText(before[1..], sec, after);
    }
  }

  lemma ClockThenText(sec: int, after: string)
    requires sec <= MAX_INT64
    ensures ClockAt("[%clk " + FormatClock(sec) + "]" + after) == Some(if sec < 0 then 0 else sec)
  {
    var n := if sec < 0 then 0 else sec;
    var h, m, s := Decimal(n / 3600), TwoDigits(n % 3600 / 60), TwoDigits(n % 60);
    var text := "[%clk " + FormatClock(sec) + "]" + after;
    TwoDigitsValue(n % 3600 / 60);
    TwoDigitsValue(n % 60);
    SecondsOf(n);
    ClockText(h, m, s, after);
    AnnotationRead(text, " ", h, m, s, after);
  }

  lemma ClockText(h: string, m: string, s: string, after: string)
    ensures "[%clk " + (h + ":" + m + ":" + s) + "]" + after
      == "[%clk" + (" " + (h + [':'] + (m + [':'] + (s + [']'] + after))))
  {
  }

  /** No annotation begins inside the text before one. */
  lemma NoStraddle(before: string, clock: string)
    requires before != "" && !Occurs(before, "[%clk") && "[%clk" <= clock
    ensures ClockAt(before + clock) == None
  {
    var text := before + clock;
    assert before[0..] == before;
    if |before| >= 5 {
      assert text[..5] == before[..5];
    } else {
      assert text[|before|] == clock[0] == '[' && "[%clk"[|before|] != '[';
    }
  }
}
