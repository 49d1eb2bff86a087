/** Text helpers of the status core: shortening of display names, the
    clock-style rendering of second counts, and a reader for that rendering
    that serves as its inverse. */
module Text {
  import opened Wrappers

  /** The single character appended to a shortened title. */
  const Ellipsis: char := '…'

  /** The maximum title length used everywhere in the application. */
  const TitleLimit: int := 60

  // ---------------------------------------------------------------------
  // Shortening

  /** Python's prefix slice `s[:k]`: a negative bound counts from the end
      and every bound is clamped to the string. */
  function PyPrefix(s: string, k: int): (r: string)
    ensures 0 <= k <= |s| ==> r == s[..k]
    ensures k >= |s| ==> r == s
    ensures k < 0 ==> r == s[..if |s| + k >= 0 then |s| + k else 0]
  {
    if k >= |s| then s
    else if k >= 0 then s[..k]
    else if |s| + k >= 0 then s[..|s| + k]
    else []
  }

  /** `shorten_title`: a title longer than `maxLength` keeps its first
      `maxLength - 1` characters and gains one trailing ellipsis. */
  function ShortenTitle(title: string, maxLength: int): (r: string)
    ensures |title| <= maxLength ==> r == title
    ensures |title| > maxLength >= 1 ==>
              |r| == maxLength && r[..maxLength - 1] == title[..maxLength - 1] && r[maxLength - 1] == Ellipsis
    ensures maxLength >= 1 ==> |r| <= maxLength
    ensures |title| > maxLength ==> |r| >= 1 && r[|r| - 1] == Ellipsis && r[..|r| - 1] <= title
  {
    if |title| <= maxLength then title else PyPrefix(title, maxLength - 1) + [Ellipsis]
  }

  // ---------------------------------------------------------------------
  // Decimal numerals

  predicate IsDigit(c: char) {
    '0' <= c <= '9'
  }

  predicate AllDigits(s: string) {
    forall i :: 0 <= i < |s| ==> IsDigit(s[i])
  }

  function DigitChar(d: int): (c: char)
    requires 0 <= d < 10
    ensures IsDigit(c) && c as int - '0' as int == d
  {
    ('0' as int + d) as char
  }

  /** Python's `str(n)` of a natural number: no leading zeros. */
  function Decimal(n: nat): (r: string)
    ensures |r| >= 1 && AllDigits(r)
    ensures (|r| == 1) == (n < 10)
    ensures |r| > 1 ==> r[0] != '0'
  {
    if n < 10 then [DigitChar(n)] else Decimal(n / 10) + [DigitChar(n % 10)]
  }

  /** Python's `str(i)` of an integer: a minus sign before the magnitude. */
  function IntToString(i: int): (r: string)
    ensures |r| >= 1 && ':' !in r
    ensures (r[0] == '-') == (i < 0)
  {
    if i < 0 then "-" + Decimal(-i) else Decimal(i)
  }

  /** The format `{n:02}` of a natural number: zero-padded to width two. */
  function Pad2(n: nat): (r: string)
    ensures |r| >= 2 && AllDigits(r)
    ensures n < 100 ==> |r| == 2
  {
    if n < 10 then "0" + Decimal(n) else Decimal(n)
  }

  /** The value of a string of digits, read most significant first. */
  function DigitsValue(s: string): nat
    requires AllDigits(s)
  {
    if s == [] then 0 else DigitsValue(s[..|s| - 1]) * 10 + (s[|s| - 1] as int - '0' as int)
  }

  /** A non-empty digit string, read as a natural number. */
  function ParseNat(s: string): Option<nat> {
    if s != [] && AllDigits(s) then Some(DigitsValue(s)) else None
  }

  /** A decimal integer with an optional leading minus sign. */
  function ParseInt(s: string): Option<int> {
    if |s| >= 1 && s[0] == '-' then
      match ParseNat(s[1..])
      case Some(n) => Some(-(n as int))
      case None => None
    else match ParseNat(s)
      case Some(n) => Some(n)
      case None => None
  }

  lemma {:induction false} DecimalValue(n: nat)
    ensures DigitsValue(Decimal(n)) == n
    decreases n
  {
    var r := Decimal(n);
    if n >= 10 {
      assert r[..|r| - 1] == Decimal(n / 10);
      DecimalValue(n / 10);
    }
  }

  lemma ParseNatDecimal(n: nat)
    ensures ParseNat(Decimal(n)) == Some(n)
  {
    DecimalValue(n);
  }

  lemma ParsePad2(n: nat)
    requires n < 100
    ensures ParseNat(Pad2(n)) == Some(n)
  {
    if n < 10 {
      var r := Pad2(n);
      assert r[..1] == "0";
      assert DigitsValue(r[..1]) == 0;
    } else {
      DecimalValue(n);
    }
  }

  /** `int(str(i)) == i`. */
  lemma ParseIntToString(i: int)
    ensures ParseInt(IntToString(i)) == Some(i)
  {
    if i < 0 {
      assert IntToString(i)[1..] == Decimal(-i);
      ParseNatDecimal(-i);
    } else {
      ParseNatDecimal(i);
    }
  }

  // ---------------------------------------------------------------------
  // Splitting and joining

  /** The pieces of `s` between colons (Python's `s.split(":")`). */
  function Fields(s: string): (r: seq<string>)
    ensures |r| >= 1
  {
    if s == [] then [""]
    else
      var rest := Fields(s[1..]);
      if s[0] == ':' then [""] + rest else [[s[0]] + rest[0]] + rest[1..]
  }

  lemma {:induction false} FieldsNoColon(a: string)
    requires ':' !in a
    ensures Fields(a) == [a]
  {
    if a != [] {
      FieldsNoColon(a[1..]);
      assert [a[0]] + a[1..] == a;
    }
  }

  lemma {:induction false} FieldsConcat(a: string, b: string)
    requires ':' !in a
    ensures Fields(a + ":" + b) == [a] + Fields(b)
  {
    if a == [] {
      assert a + ":" + b == [':'] + b;
      assert (a + ":" + b)[1..] == b;
    } else {
      var s := a + ":" + b;
      assert s[0] == a[0];
      assert s[1..] == a[1..] + ":" + b;
      FieldsConcat(a[1..], b);
      assert [a[0]] + a[1..] == a;
    }
  }

  lemma DigitsNoColon(s: string)
    requires AllDigits(s)
    ensures ':' !in s
  {
  }

  /** `sep.join(parts)`. */
  function Join(parts: seq<string>, sep: string): (r: string)
    ensures |parts| == 1 ==> r == parts[0]
    ensures parts == [] ==> r == ""
  {
    if parts == [] then ""
    else if |parts| == 1 then parts[0]
    else parts[0] + sep + Join(parts[1..], sep)
  }

  /** A join ends with its last part. */
  lemma {:induction false} JoinLast(parts: seq<string>, sep: string)
    requires |parts| >= 1
    ensures var r := Join(parts, sep);
      |parts[|parts| - 1]| <= |r| && r[|r| - |parts[|parts| - 1]|..] == parts[|parts| - 1]
  {
    if |parts| > 1 {
      JoinLast(parts[1..], sep);
      var r := Join(parts, sep);
      var tail := Join(parts[1..], sep);
      assert r == parts[0] + sep + tail;
      assert r[|r| - |tail|..] == tail;
    }
  }

  // ---------------------------------------------------------------------
  // Clock-style times

  const SecondsPerDay: int := 86400
  const SecondsPerHour: int := 3600
  const SecondsPerMinute: int := 60

  /** The `divmod` chain of `format_time`: days, and the hours, minutes and
      seconds of the remainder (floor division, as Python's `divmod`). */
  datatype TimeParts = TimeParts(days: int, hours: nat, minutes: nat, secs: nat)

  function Split(seconds: int): (p: TimeParts)
    ensures p.hours < 24 && p.minutes < 60 && p.secs < 60
    ensures p.days * SecondsPerDay + p.hours * SecondsPerHour + p.minutes * SecondsPerMinute + p.secs == seconds
    ensures seconds >= 0 ==> p.days >= 0
    ensures (p.days == 0) == (0 <= seconds < SecondsPerDay)
    ensures p.days == 0 ==> ((p.hours == 0) == (seconds < SecondsPerHour))
  {
    var days := seconds / SecondsPerDay;
    var rest := seconds % SecondsPerDay;
    TimeParts(days, rest / SecondsPerHour, rest % SecondsPerHour / SecondsPerMinute, rest % SecondsPerHour % SecondsPerMinute)
  }

  /** `format_time`: `D:HH:MM:SS` when there are days, else `H:MM:SS` when
      there are hours, else `M:SS`; all but the leading field zero-padded. */
  function FormatTime(seconds: int): (r: string)
    ensures |r| >= 4 && r[|r| - 3] == ':'
    ensures r[0] == '-' <==> seconds < 0
  {
    var p := Split(seconds);
    if p.days != 0 then IntToString(p.days) + ":" + Pad2(p.hours) + ":" + Pad2(p.minutes) + ":" + Pad2(p.secs)
    else if p.hours != 0 then Decimal(p.hours) + ":" + Pad2(p.minutes) + ":" + Pad2(p.secs)
    else Decimal(p.minutes) + ":" + Pad2(p.secs)
  }

  /** A two-digit field below `bound`. */
  function ParseField2(s: string, bound: nat): Option<nat> {
    if |s| != 2 then None
    else match ParseNat(s)
      case Some(n) => if n < bound then Some(n) else None
      case None => None
  }

  /** Reads a `D:HH:MM:SS`, `H:MM:SS` or `M:SS` rendering back into seconds. */
  function ParseTime(s: string): Option<int> {
    var f := Fields(s);
    if |f| == 4 then
      match (ParseInt(f[0]), ParseField2(f[1], 24), ParseField2(f[2], 60), ParseField2(f[3], 60))
      case (Some(d), Some(h), Some(m), Some(x)) => Some(d * SecondsPerDay + h * SecondsPerHour + m * SecondsPerMinute + x)
      case _ => None
    else if |f| == 3 then
      match (ParseNat(f[0]), ParseField2(f[1], 60), ParseField2(f[2], 60))
      case (Some(h), Some(m), Some(x)) => if h < 24 then Some(h * SecondsPerHour + m * SecondsPerMinute + x) else None
      case _ => None
    else if |f| == 2 then
      match (ParseNat(f[0]), ParseField2(f[1], 60))
      case (Some(m), Some(x)) => if m < 60 then Some(m * SecondsPerMinute + x) else None
      case _ => None
    else None
  }

  lemma Pad2Field(n: nat)
    requires n < 100
    ensures ':' !in Pad2(n) && ParseField2(Pad2(n), n + 1) == Some(n)
  {
    DigitsNoColon(Pad2(n));
    ParsePad2(n);
  }

  lemma DecimalNoColon(n: nat)
    ensures ':' !in Decimal(n)
  {
    DigitsNoColon(Decimal(n));
  }

  lemma FieldsOfThree(a: string, b: string, c: string)
    requires ':' !in a && ':' !in b && ':' !in c
    ensures Fields(a + ":" + b + ":" + c) == [a, b, c]
  {
    var t := b + ":" + c;
    FieldsNoColon(c);
    FieldsConcat(b, c);
    FieldsConcat(a, t);
    assert a + ":" + b + ":" + c == (a + ":") + t;
  }

  lemma FieldsOfFour(a: string, b: string, c: string, d: string)
    requires ':' !in a && ':' !in b && ':' !in c && ':' !in d
    ensures Fields(a + ":" + b + ":" + c + ":" + d) == [a, b, c, d]
  {
    var t := b + ":" + c + ":" + d;
    FieldsOfThree(b, c, d);
    FieldsConcat(a, t);
    assert a + ":" + b + ":" + c + ":" + d == (a + ":") + t;
  }

  /** The colon-separated fields of a rendering: four when the count has
      days, three when it has hours but no days, two otherwise. */
  lemma FormatTimeFields(seconds: int)
    ensures var p := Split(seconds);
      Fields(FormatTime(seconds)) ==
        if p.days != 0 then [IntToString(p.days), Pad2(p.hours), Pad2(p.minutes), Pad2(p.secs)]
        else if p.hours != 0 then [Decimal(p.hours), Pad2(p.minutes), Pad2(p.secs)]
        else [Decimal(p.minutes), Pad2(p.secs)]
  {
    var p := Split(seconds);
    Pad2Field(p.hours);
    Pad2Field(p.minutes);
    Pad2Field(p.secs);
    if p.days != 0 {
      FieldsOfFour(IntToString(p.days), Pad2(p.hours), Pad2(p.minutes), Pad2(p.secs));
    } else if p.hours != 0 {
      DecimalNoColon(p.hours);
      FieldsOfThree(Decimal(p.hours), Pad2(p.minutes), Pad2(p.secs));
    } else {
      DecimalNoColon(p.minutes);
      FieldsNoColon(Pad2(p.secs));
      FieldsConcat(Decimal(p.minutes), Pad2(p.secs));
    }
  }

  /** The layout promised for a non-negative count: the `D:HH:MM:SS` form
      exactly when there is at least a day, `H:MM:SS` exactly when there is
      at least an hour but less than a day, `M:SS` otherwise, and every
      field after the first is two digits. */
  lemma FormatTimeLayout(seconds: nat)
    ensures var f := Fields(FormatTime(seconds));
      && (|f| == 4 <==> seconds >= SecondsPerDay)
      && (|f| == 3 <==> SecondsPerHour <= seconds < SecondsPerDay)
      && (|f| == 2 <==> seconds < SecondsPerHour)
      && (forall i :: 1 <= i < |f| ==> |f[i]| == 2 && AllDigits(f[i]))
  {
    FormatTimeFields(seconds);
  }

  /** Reading a rendering gives back the count: the fields recombine to the
      input, whatever its sign. */
  lemma ParseFormatTime(seconds: int)
    ensures ParseTime(FormatTime(seconds)) == Some(seconds)
  {
    var p := Split(seconds);
    FormatTimeFields(seconds);
    Pad2Field(p.hours);
    Pad2Field(p.minutes);
    Pad2Field(p.secs);
    assert ParseField2(Pad2(p.hours), 24) == Some(p.hours);
    assert ParseField2(Pad2(p.minutes), 60) == Some(p.minutes);
    assert ParseField2(Pad2(p.secs), 60) == Some(p.secs);
    if p.days != 0 {
      ParseIntToString(p.days);
    } else if p.hours != 0 {
      ParseNatDecimal(p.hours);
    } else {
      ParseNatDecimal(p.minutes);
    }
  }

  /** Every rendering ends with the two digits of its seconds field. */
  lemma FormatTimeEndsWithDigit(seconds: int)
    ensures var r := FormatTime(seconds); |r| >= 2 && IsDigit(r[|r| - 1])
  {
    var p := Split(seconds);
    var r := FormatTime(seconds);
    var tail := Pad2(p.secs);
    assert r[|r| - 1] == tail[|tail| - 1];
  }

  /** Three renderings worked out: a minute, three minutes twenty, and two
      seconds before zero. */
  lemma FormatTimeExamples()
    ensures FormatTime(60) == "1:00"
    ensures FormatTime(200) == "3:20"
    ensures FormatTime(-2) == "-1:23:59:58"
  {
    assert Split(-2) == TimeParts(-1, 23, 59, 58);
    assert IntToString(-1) == "-1" by { assert Decimal(1) == "1"; }
    assert Pad2(23) == "23" by {
      assert Decimal(2) == "2";
      assert Decimal(23) == Decimal(2) + [DigitChar(3)];
    }
    assert Pad2(59) == "59" by {
      assert Decimal(5) == "5";
      assert Decimal(59) == Decimal(5) + [DigitChar(9)];
    }
    assert Pad2(58) == "58" by {
      assert Decimal(5) == "5";
      assert Decimal(58) == Decimal(5) + [DigitChar(8)];
    }
    assert Split(60) == TimeParts(0, 0, 1, 0);
    assert Pad2(0) == "00" by { assert Decimal(0) == "0"; }
    assert Decimal(1) == "1";
    assert Split(200) == TimeParts(0, 0, 3, 20);
    assert Decimal(3) == "3";
    assert Pad2(20) == "20" by {
      assert Decimal(2) == "2";
      assert Decimal(20) == Decimal(2) + [DigitChar(0)];
    }
  }

  /** Two different counts never render alike. */
  lemma FormatTimeInjective(a: int, b: int)
    requires FormatTime(a) == FormatTime(b)
    ensures a == b
  {
    ParseFormatTime(a);
    ParseFormatTime(b);
  }
}
