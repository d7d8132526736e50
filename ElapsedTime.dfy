/** `format_elapsed_time` (main.py:5-9): elapsed time as `HH:MM:SS`.

    The source subtracts two wall-clock floats and truncates each field with
    `int()`; here the elapsed time is a natural number of whole seconds, so
    the truncation is the identity. */
module ElapsedTime {
  import opened Wrappers

  /** Hours, minutes and seconds of an elapsed time. */
  datatype Clock = Clock(hours: nat, minutes: nat, seconds: nat)

  function TotalSeconds(c: Clock): nat {
    c.hours * 3600 + c.minutes * 60 + c.seconds
  }

  /** `hours, remainder = divmod(e, 3600)`; `minutes, seconds = divmod(remainder, 60)`:
      the one clock reading of `e` whose minutes and seconds are below 60. */
  function Split(e: nat): (c: Clock)
    ensures c.minutes < 60 && c.seconds < 60
    ensures TotalSeconds(c) == e
  {
    var remainder := e % 3600;
    Clock(e / 3600, remainder / 60, remainder % 60)
  }

  /** No other reading with minutes and seconds below 60 denotes `e`. */
  lemma SplitUnique(e: nat, c: Clock)
    requires c.minutes < 60 && c.seconds < 60 && TotalSeconds(c) == e
    ensures c == Split(e)
  {
    var r := c.minutes * 60 + c.seconds;
    assert r < 3600;
    assert e == c.hours * 3600 + r;
    assert e / 3600 == c.hours && e % 3600 == r;
    assert r / 60 == c.minutes && r % 60 == c.seconds;
  }

  predicate IsDigit(ch: char) {
    '0' <= ch <= '9'
  }

  /** A non-empty run of decimal digits. */
  predicate IsNumeral(s: string) {
    |s| >= 1 && forall i | 0 <= i < |s| :: IsDigit(s[i])
  }

  function DigitChar(d: nat): (ch: char)
    requires d < 10
    ensures IsDigit(ch)
  {
    ('0' as int + d) as char
  }

  function DigitValue(ch: char): (d: nat)
    requires IsDigit(ch)
    ensures d < 10 && DigitChar(d) == ch
  {
    ch as int - '0' as int
  }

  /** `str(n)`: decimal digits without leading zeros. */
  function Decimal(n: nat): (s: string)
    ensures IsNumeral(s)
    ensures n < 10 <==> |s| == 1
    ensures s[0] == '0' <==> n == 0
  {
    if n < 10 then [DigitChar(n)] else Decimal(n / 10) + [DigitChar(n % 10)]
  }

  /** The number a run of decimal digits denotes. */
  function DecimalValue(s: string): nat
    requires forall i | 0 <= i < |s| :: IsDigit(s[i])
  {
    if |s| == 0 then 0 else DecimalValue(s[..|s| - 1]) * 10 + DigitValue(s[|s| - 1])
  }

  /** `f"{n:02}"`: decimal, padded with zeros to at least two characters. */
  function Pad2(n: nat): (s: string)
    ensures IsNumeral(s) && |s| >= 2
    ensures n < 100 ==> |s| == 2
    ensures s[0] == '0' <==> n < 10
    ensures n >= 10 ==> s == Decimal(n)
  {
    var d := Decimal(n);
    if n < 10 then "0" + d else d
  }

  /** The string `format_elapsed_time` returns for `e` elapsed seconds. */
  function FormatElapsed(e: nat): (r: string)
    ensures |r| >= 8 && r[|r| - 3] == ':' && r[|r| - 6] == ':'
  {
    var c := Split(e);
    Pad2(c.hours) + ":" + Pad2(c.minutes) + ":" + Pad2(c.seconds)
  }

  /** `s.split(':')`. */
  function Fields(s: string): (fs: seq<string>)
    ensures |fs| >= 1
  {
    if |s| == 0 then [""]
    else
      var rest := Fields(s[1..]);
      if s[0] == ':' then [""] + rest else [[s[0]] + rest[0]] + rest[1..]
  }

  /** Reads `H...H:MM:SS` back: three colon-separated numerals. */
  function ParseClock(s: string): Option<Clock> {
    var fs := Fields(s);
    if |fs| == 3 && IsNumeral(fs[0]) && IsNumeral(fs[1]) && IsNumeral(fs[2]) then
      Some(Clock(DecimalValue(fs[0]), DecimalValue(fs[1]), DecimalValue(fs[2])))
    else
      None
  }

  lemma {:induction false} DecimalRoundTrip(n: nat)
    ensures DecimalValue(Decimal(n)) == n
  {
    if n >= 10 {
      var s := Decimal(n);
      assert s[..|s| - 1] == Decimal(n / 10);
      DecimalRoundTrip(n / 10);
    }
  }

  lemma {:induction false} LeadingZero(s: string)
    requires forall i | 0 <= i < |s| :: IsDigit(s[i])
    ensures DecimalValue("0" + s) == DecimalValue(s)
  {
    if |s| > 0 {
      var t := "0" + s;
      assert t[..|t| - 1] == "0" + s[..|s| - 1];
      LeadingZero(s[..|s| - 1]);
    }
  }

  lemma Pad2RoundTrip(n: nat)
    ensures DecimalValue(Pad2(n)) == n
  {
    DecimalRoundTrip(n);
    if n < 10 {
      LeadingZero(Decimal(n));
    }
  }

  lemma {:induction false} FieldsOfPlain(a: string)
    requires ':' !in a
    ensures Fields(a) == [a]
  {
    if |a| > 0 {
      FieldsOfPlain(a[1..]);
      assert [a[0]] + a[1..] == a;
    }
  }

  lemma {:induction false} FieldsOfJoin(a: string, b: string)
    requires ':' !in a
    ensures Fields(a + ":" + b) == [a] + Fields(b)
  {
    if |a| == 0 {
      assert a + ":" + b == ":" + b;
      assert (":" + b)[1..] == b;
    } else {
      assert (a + ":" + b)[1..] == a[1..] + ":" + b;
      FieldsOfJoin(a[1..], b);
      assert [a[0]] + a[1..] == a;
    }
  }

  /** Reading the formatted string back gives the clock reading of `e`,
      and so `e` itself. */
  lemma FormatRoundTrip(e: nat)
    ensures ParseClock(FormatElapsed(e)) == Some(Split(e))
    ensures TotalSeconds(ParseClock(FormatElapsed(e)).value) == e
  {
    var c := Split(e);
    var h, m, s := Pad2(c.hours), Pad2(c.minutes), Pad2(c.seconds);
    FieldsOfPlain(s);
    FieldsOfJoin(m, s);
    assert h + ":" + m + ":" + s == h + ":" + (m + ":" + s);
    FieldsOfJoin(h, m + ":" + s);
    Pad2RoundTrip(c.hours);
    Pad2RoundTrip(c.minutes);
    Pad2RoundTrip(c.seconds);
  }

  /** Different elapsed times are printed differently. */
  lemma FormatInjective(e1: nat, e2: nat)
    ensures FormatElapsed(e1) == FormatElapsed(e2) ==> e1 == e2
  {
    FormatRoundTrip(e1);
    FormatRoundTrip(e2);
  }

  /** One hour, one minute and one second. */
  lemma FormatExample()
    ensures FormatElapsed(3661) == "01:01:01"
  {
    assert Split(3661) == Clock(1, 1, 1);
  }
}
