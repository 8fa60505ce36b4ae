/** The 20-byte instants of the wire, section 5.6 of RFC 3339: `YYYY-MM-DDTHH:MM:SSZ`. */
module Rfc3339 {
  import opened Options
  import opened Bytes

  // ---------------------------------------------------------------- the Gregorian calendar

  predicate IsLeap(y: nat) { y % 4 == 0 && (y % 100 != 0 || y % 400 == 0) }

  function YearLength(y: nat): nat { if IsLeap(y) then 366 else 365 }

  function MonthLength(y: nat, m: nat): nat {
    if m == 2 then (if IsLeap(y) then 29 else 28) else if m == 4 || m == 6 || m == 9 || m == 11 then 30 else 31
  }

  function DaysBeforeYear(y: nat): nat { if y == 0 then 0 else DaysBeforeYear(y - 1) + YearLength(y - 1) }

  function DaysBeforeMonth(y: nat, m: nat): nat
    requires 1 <= m <= 13
  {
    if m == 1 then 0 else DaysBeforeMonth(y, m - 1) + MonthLength(y, m - 1)
  }

  datatype Civil = Civil(year: nat, month: nat, day: nat, hour: nat, minute: nat, second: nat)

  predicate Valid(c: Civil) {
    && c.year <= 9999 && 1 <= c.month <= 12 && 1 <= c.day <= MonthLength(c.year, c.month)
    && c.hour < 24 && c.minute < 60 && c.second < 60
  }

  function DayOf(c: Civil): nat
    requires Valid(c)
  {
    DaysBeforeYear(c.year) + DaysBeforeMonth(c.year, c.month) + c.day - 1
  }

  /** Seconds since the start of year 0, and since 1970. */
  function Seconds(c: Civil): nat
    requires Valid(c)
  {
    DayOf(c) * 86400 + c.hour * 3600 + c.minute * 60 + c.second
  }

  const UNIX_EPOCH: nat := 719528 * 86400

  lemma {:induction false} DaysClosedForm(y: nat)
    ensures DaysBeforeYear(y) == 365 * y + (y + 3) / 4 - (y + 99) / 100 + (y + 399) / 400
  {
    if y > 0 {
      DaysClosedForm(y - 1);
      Quotients(y - 1);
      hide DaysBeforeYear;
      assert DaysBeforeYear(y) == DaysBeforeYear(y - 1) + YearLength(y - 1) by { NextYear(y); }
    }
  }

  lemma NextYear(y: nat)
    requires y > 0
    ensures DaysBeforeYear(y) == DaysBeforeYear(y - 1) + YearLength(y - 1)
  {}

  /** Passing a multiple raises the quotient by one. */
  lemma Quotients(z: nat)
    ensures (z + 4) / 4 == (z + 3) / 4 + if z % 4 == 0 then 1 else 0
    ensures (z + 100) / 100 == (z + 99) / 100 + if z % 100 == 0 then 1 else 0
    ensures (z + 400) / 400 == (z + 399) / 400 + if z % 400 == 0 then 1 else 0
    ensures (z % 100 == 0 ==> z % 4 == 0) && (z % 400 == 0 ==> z % 100 == 0)
  {
    PassesFour(z);
    PassesHundred(z);
    PassesFourHundred(z);
    HundredsAreFours(z);
    FourHundredsAreHundreds(z);
  }

  lemma PassesFour(z: nat)
    ensures (z + 4) / 4 == (z + 3) / 4 + if z % 4 == 0 then 1 else 0
  {}

  lemma PassesHundred(z: nat)
    ensures (z + 100) / 100 == (z + 99) / 100 + if z % 100 == 0 then 1 else 0
  {}

  lemma PassesFourHundred(z: nat)
    ensures (z + 400) / 400 == (z + 399) / 400 + if z % 400 == 0 then 1 else 0
  {}

  lemma HundredsAreFours(z: nat)
    ensures z % 100 == 0 ==> z % 4 == 0
  {
    var fours := 25 * (z / 100);
    assert z == 4 * fours + z % 100;
    FoursAreMultiples(fours);
  }

  lemma FoursAreMultiples(k: nat)
    ensures 4 * k % 4 == 0
  {}

  lemma FourHundredsAreHundreds(z: nat)
    ensures z % 400 == 0 ==> z % 100 == 0
  {}

  /** Midnight on 1 January 1970 is the instant zero. */
  lemma EpochIsZero(c: Civil)
    requires Valid(c)
    requires c.year == 1970 && c.month == 1 && c.day == 1 && c.hour == c.minute == c.second == 0
    ensures Instant(c) == 0
  {
    DaysClosedForm(c.year);
  }

  function Instant(c: Civil): int
    requires Valid(c)
  {
    Seconds(c) - UNIX_EPOCH
  }

  predicate CivilLess(a: Civil, b: Civil) {
    if a.year != b.year then a.year < b.year
    else if a.month != b.month then a.month < b.month
    else if a.day != b.day then a.day < b.day
    else if a.hour != b.hour then a.hour < b.hour
    else if a.minute != b.minute then a.minute < b.minute
    else a.second < b.second
  }

  lemma {:induction false} YearsAscend(x: nat, y: nat)
    requires x < y
    ensures DaysBeforeYear(x) + YearLength(x) <= DaysBeforeYear(y)
  {
    if x < y - 1 { YearsAscend(x, y - 1); }
  }

  lemma {:induction false} MonthsAscend(y: nat, m: nat, n: nat)
    requires 1 <= m < n <= 13
    ensures DaysBeforeMonth(y, m) + MonthLength(y, m) <= DaysBeforeMonth(y, n)
  {
    if m < n - 1 { MonthsAscend(y, m, n - 1); }
  }

  lemma MonthsFillYear(y: nat)
    ensures DaysBeforeMonth(y, 13) == YearLength(y)
  {
    assert DaysBeforeMonth(y, 2) == 31;
    assert DaysBeforeMonth(y, 4) == 31 + MonthLength(y, 2) + 31;
    assert DaysBeforeMonth(y, 6) == DaysBeforeMonth(y, 4) + 61;
    assert DaysBeforeMonth(y, 8) == DaysBeforeMonth(y, 6) + 61;
    assert DaysBeforeMonth(y, 10) == DaysBeforeMonth(y, 8) + 61;
    assert DaysBeforeMonth(y, 12) == DaysBeforeMonth(y, 10) + 61;
  }

  lemma DayWithinYear(c: Civil)
    requires Valid(c)
    ensures DaysBeforeYear(c.year) <= DayOf(c) < DaysBeforeYear(c.year) + YearLength(c.year)
  {
    MonthsAscend(c.year, c.month, 13);
    MonthsFillYear(c.year);
  }

  lemma DaysAscend(a: Civil, b: Civil)
    requires Valid(a) && Valid(b)
    requires a.year < b.year || (a.year == b.year && (a.month < b.month || (a.month == b.month && a.day < b.day)))
    ensures DayOf(a) < DayOf(b)
  {
    DayWithinYear(a);
    DayWithinYear(b);
    if a.year < b.year {
      YearsAscend(a.year, b.year);
    } else if a.month < b.month {
      MonthsAscend(a.year, a.month, b.month);
    }
  }

  lemma EarlierCivil(a: Civil, b: Civil)
    requires Valid(a) && Valid(b) && CivilLess(a, b)
    ensures Seconds(a) < Seconds(b)
  {
    if a.year == b.year && a.month == b.month && a.day == b.day {
      assert DayOf(a) == DayOf(b);
    } else {
      DaysAscend(a, b);
    }
  }

  /** The field order of dates is the order of their instants. */
  lemma CivilOrder(a: Civil, b: Civil)
    requires Valid(a) && Valid(b)
    ensures CivilLess(a, b) <==> Instant(a) < Instant(b)
    ensures Instant(a) == Instant(b) <==> a == b
  {
    if CivilLess(a, b) {
      EarlierCivil(a, b);
    } else if CivilLess(b, a) {
      EarlierCivil(b, a);
    }
  }

  // ---------------------------------------------------------------- the text

  function Digit(n: nat): Byte
    requires n < 10
  {
    0x30 + n
  }

  function TwoDigits(n: nat): (t: Text)
    requires n < 100
    ensures |t| == 2
  {
    [Digit(n / 10), Digit(n % 10)]
  }

  function FourDigits(n: nat): (t: Text)
    requires n < 10000
    ensures |t| == 4
  {
    TwoDigits(n / 100) + TwoDigits(n % 100)
  }

  const DASH: Byte := 0x2D
  const COLON: Byte := 0x3A
  const LETTER_T: Byte := 0x54
  const LETTER_Z: Byte := 0x5A

  function TextOf(c: Civil): (t: Text)
    requires Valid(c)
    ensures |t| == 20
  {
    FourDigits(c.year) + ([DASH] + (TwoDigits(c.month) + ([DASH] + (TwoDigits(c.day) + ([LETTER_T] + (TwoDigits(c.hour)
    + ([COLON] + (TwoDigits(c.minute) + ([COLON] + (TwoDigits(c.second) + [LETTER_Z]))))))))))
  }

  predicate IsDecimal(t: Text) { forall i :: 0 <= i < |t| ==> 0x30 <= t[i] <= 0x39 }

  function DigitValue(b: Byte): (n: nat)
    requires 0x30 <= b <= 0x39
    ensures n < 10 && Digit(n) == b
  {
    b - 0x30
  }

  function NumberOf(t: Text): nat
    requires IsDecimal(t)
  {
    if t == [] then 0 else NumberOf(t[..|t| - 1]) * 10 + DigitValue(t[|t| - 1])
  }

  /** The unsigned decimal spelled by exactly these bytes. */
  function DecimalField(t: Text): Option<nat> { if IsDecimal(t) then Some(NumberOf(t)) else None }

  function ParseCivil(t: Text): Option<Civil>
    requires |t| == 20
  {
    var year, month, day := DecimalField(t[0..4]), DecimalField(t[5..7]), DecimalField(t[8..10]);
    var hour, minute, second := DecimalField(t[11..13]), DecimalField(t[14..16]), DecimalField(t[17..19]);
    if year.None? || month.None? || day.None? || hour.None? || minute.None? || second.None? then None
    else
      var c := Civil(year.value, month.value, day.value, hour.value, minute.value, second.value);
      if Valid(c) then Some(c) else None
  }

  predicate Separated(t: Text)
    requires |t| == 20
  {
    t[4] == DASH && t[7] == DASH && t[10] == LETTER_T && t[13] == COLON && t[16] == COLON && t[19] == LETTER_Z
  }

  function CivilOf(t: Text): Option<Civil> { if |t| != 20 || !Separated(t) then None else ParseCivil(t) }

  function Parse(t: Text): Option<int> {
    match CivilOf(t)
    case None => None
    case Some(c) => Some(Instant(c))
  }

  lemma NumberOfTwo(t: Text)
    requires |t| == 2 && IsDecimal(t)
    ensures NumberOf(t) == DigitValue(t[0]) * 10 + DigitValue(t[1]) < 100 && TwoDigits(NumberOf(t)) == t
  {
    assert t[..1] == [t[0]] && NumberOf(t[..1]) == DigitValue(t[0]);
    assert NumberOf(t) == NumberOf(t[..1]) * 10 + DigitValue(t[1]);
  }

  lemma NumberOfFour(t: Text)
    requires |t| == 4 && IsDecimal(t)
    ensures NumberOf(t) == NumberOf(t[..2]) * 100 + NumberOf(t[2..]) < 10000 && FourDigits(NumberOf(t)) == t
  {
    var h, l := t[..2], t[2..];
    NumberOfTwo(h);
    NumberOfTwo(l);
    FourAsTwos(t);
    assert t == h + l;
    hide NumberOf, TwoDigits;
    JoinDigits(NumberOf(h), NumberOf(l));
  }

  lemma FourAsTwos(t: Text)
    requires |t| == 4 && IsDecimal(t)
    ensures NumberOf(t) == NumberOf(t[..2]) * 100 + DigitValue(t[2]) * 10 + DigitValue(t[3])
  {
    assert t[..3][..2] == t[..2];
    assert NumberOf(t[..3]) == NumberOf(t[..2]) * 10 + DigitValue(t[2]);
    assert NumberOf(t) == NumberOf(t[..3]) * 10 + DigitValue(t[3]);
  }

  lemma JoinDigits(h: nat, l: nat)
    requires h < 100 && l < 100
    ensures (h * 100 + l) / 100 == h && (h * 100 + l) % 100 == l
  {}

  lemma TwoDigitsRead(n: nat)
    requires n < 100
    ensures IsDecimal(TwoDigits(n)) && NumberOf(TwoDigits(n)) == n
  {
    NumberOfTwo(TwoDigits(n));
  }

  lemma FourDigitsRead(n: nat)
    requires n < 10000
    ensures IsDecimal(FourDigits(n)) && NumberOf(FourDigits(n)) == n
  {
    TwoDigitsRead(n / 100);
    TwoDigitsRead(n % 100);
    var t := FourDigits(n);
    assert t[..2] == TwoDigits(n / 100) && t[2..] == TwoDigits(n % 100);
    assert IsDecimal(t) by { assert forall i :: 2 <= i < 4 ==> t[i] == t[2..][i - 2]; }
    NumberOfFour(t);
  }

  /** Formatting after parsing is the identity on every accepted string. */
  lemma AcceptedText(t: Text)
    requires CivilOf(t).Some?
    ensures Valid(CivilOf(t).value) && TextOf(CivilOf(t).value) == t
  {
    NumberOfFour(t[0..4]);
    NumberOfTwo(t[5..7]);
    NumberOfTwo(t[8..10]);
    NumberOfTwo(t[11..13]);
    NumberOfTwo(t[14..16]);
    NumberOfTwo(t[17..19]);
    hide FourDigits, TwoDigits, NumberOf, IsDecimal, Valid;
    Rejoin(t);
  }

  lemma Rejoin(t: Text)
    requires |t| == 20 && Separated(t)
    ensures t == t[0..4] + ([DASH] + (t[5..7] + ([DASH] + (t[8..10] + ([LETTER_T] + (t[11..13]
              + ([COLON] + (t[14..16] + ([COLON] + (t[17..19] + [LETTER_Z]))))))))))
  {}

  /** Every valid date's text is accepted, and parses to it. */
  lemma TextParses(c: Civil)
    requires Valid(c)
    ensures CivilOf(TextOf(c)) == Some(c)
  {
    FourDigitsRead(c.year);
    TwoDigitsRead(c.month);
    TwoDigitsRead(c.day);
    TwoDigitsRead(c.hour);
    TwoDigitsRead(c.minute);
    TwoDigitsRead(c.second);
    hide FourDigits, TwoDigits, NumberOf, IsDecimal;
    TextFields(c);
    hide TextOf;
  }

  lemma TextFields(c: Civil)
    requires Valid(c)
    ensures var t := TextOf(c);
            && Separated(t) && t[0..4] == FourDigits(c.year) && t[5..7] == TwoDigits(c.month)
                && t[8..10] == TwoDigits(c.day)
            && t[11..13] == TwoDigits(c.hour) && t[14..16] == TwoDigits(c.minute) && t[17..19] == TwoDigits(c.second)
  {
    hide FourDigits, TwoDigits;
    var t := TextOf(c);
    assert t[4] == DASH && t[7] == DASH && t[10] == LETTER_T && t[13] == COLON && t[16] == COLON && t[19] == LETTER_Z;
    assert t[0..4] == FourDigits(c.year) && t[5..7] == TwoDigits(c.month) && t[8..10] == TwoDigits(c.day);
    assert t[11..13] == TwoDigits(c.hour) && t[14..16] == TwoDigits(c.minute) && t[17..19] == TwoDigits(c.second);
  }

  // ---------------------------------------------------------------- bytes compare as instants

  lemma DigitsCompare(x: nat, y: nat, s: Text, t: Text)
    requires x < 100 && y < 100
    ensures LexLess(TwoDigits(x) + s, TwoDigits(y) + t) == (x < y || (x == y && LexLess(s, t)))
  {
    var a, b := TwoDigits(x), TwoDigits(y);
    assert a + s == [a[0]] + ([a[1]] + s) && b + t == [b[0]] + ([b[1]] + t);
    if a[0] == b[0] {
      LexCommonPrefix([a[0]], [a[1]] + s, [b[1]] + t);
      if a[1] == b[1] { LexCommonPrefix([a[1]], s, t); }
    }
  }

  lemma YearsCompare(x: nat, y: nat, s: Text, t: Text)
    requires x < 10000 && y < 10000
    ensures LexLess(FourDigits(x) + s, FourDigits(y) + t) == (x < y || (x == y && LexLess(s, t)))
  {
    hide LexLess, TwoDigits;
    assert FourDigits(x) + s == TwoDigits(x / 100) + (TwoDigits(x % 100) + s);
    assert FourDigits(y) + t == TwoDigits(y / 100) + (TwoDigits(y % 100) + t);
    DigitsCompare(x / 100, y / 100, TwoDigits(x % 100) + s, TwoDigits(y % 100) + t);
    DigitsCompare(x % 100, y % 100, s, t);
  }

  /** `separator` then two digits then the rest. */
  lemma FieldCompare(separator: Byte, x: nat, y: nat, s: Text, t: Text)
    requires x < 100 && y < 100
    ensures LexLess([separator] + (TwoDigits(x) + s), [separator] + (TwoDigits(y) + t))
        == (x < y || (x == y && LexLess(s, t)))
  {
    LexCommonPrefix([separator], TwoDigits(x) + s, TwoDigits(y) + t);
    DigitsCompare(x, y, s, t);
  }

  function Seconds20(c: Civil): Text
    requires Valid(c)
  {
    [COLON] + (TwoDigits(c.second) + [LETTER_Z])
  }

  function Minutes20(c: Civil): Text
    requires Valid(c)
  {
    [COLON] + (TwoDigits(c.minute) + Seconds20(c))
  }

  function Hours20(c: Civil): Text
    requires Valid(c)
  {
    [LETTER_T] + (TwoDigits(c.hour) + Minutes20(c))
  }

  function Days20(c: Civil): Text
    requires Valid(c)
  {
    [DASH] + (TwoDigits(c.day) + Hours20(c))
  }

  function Months20(c: Civil): Text
    requires Valid(c)
  {
    [DASH] + (TwoDigits(c.month) + Days20(c))
  }

  lemma TextsCompare(a: Civil, b: Civil)
    requires Valid(a) && Valid(b)
    ensures LexLess(TextOf(a), TextOf(b)) == CivilLess(a, b)
  {
    assert TextOf(a) == FourDigits(a.year) + Months20(a) && TextOf(b) == FourDigits(b.year) + Months20(b);
    YearsCompare(a.year, b.year, Months20(a), Months20(b));
    FieldCompare(DASH, a.month, b.month, Days20(a), Days20(b));
    FieldCompare(DASH, a.day, b.day, Hours20(a), Hours20(b));
    FieldCompare(LETTER_T, a.hour, b.hour, Minutes20(a), Minutes20(b));
    FieldCompare(COLON, a.minute, b.minute, Seconds20(a), Seconds20(b));
    FieldCompare(COLON, a.second, b.second, [LETTER_Z], [LETTER_Z]);
    LexIrreflexive([LETTER_Z]);
    hide LexLess, TwoDigits, FourDigits;
  }

  /** Accepted strings compare byte by byte exactly as the instants they name. */
  lemma BytesCompareAsInstants(s: Text, t: Text)
    requires Parse(s).Some? && Parse(t).Some?
    ensures LexLess(s, t) <==> Parse(s).value < Parse(t).value
    ensures s == t <==> Parse(s) == Parse(t)
  {
    AcceptedText(s);
    AcceptedText(t);
    var a, b := CivilOf(s).value, CivilOf(t).value;
    hide CivilOf, TextOf, Instant, LexLess, CivilLess, Valid;
    TextsCompare(a, b);
    CivilOrder(a, b);
  }

  // ---------------------------------------------------------------- formatting

  function YearAt(day: nat, y: nat): (r: nat)
    requires DaysBeforeYear(y) <= day < DaysBeforeYear(10000) && y <= 9999
    ensures y <= r <= 9999 && DaysBeforeYear(r) <= day < DaysBeforeYear(r) + YearLength(r)
    decreases 10000 - y
  {
    if day < DaysBeforeYear(y) + YearLength(y) then y else YearAt(day, y + 1)
  }

  function MonthAt(y: nat, day: nat, m: nat): (r: nat)
    requires 1 <= m <= 12 && DaysBeforeMonth(y, m) <= day < DaysBeforeMonth(y, 13)
    ensures m <= r <= 12 && DaysBeforeMonth(y, r) <= day < DaysBeforeMonth(y, r) + MonthLength(y, r)
    decreases 13 - m
  {
    if day < DaysBeforeMonth(y, m) + MonthLength(y, m) then m else MonthAt(y, day, m + 1)
  }

  predicate Formattable(instant: int) { 0 <= instant + UNIX_EPOCH < DaysBeforeYear(10000) * 86400 }

  /** The civil time of an instant in the years 0 to 9999. */
  function CivilAt(instant: int): (c: Civil)
    requires Formattable(instant)
    ensures Valid(c) && Instant(c) == instant
  {
    var s := instant + UNIX_EPOCH;
    SplitSeconds(s);
    DateAtIs(s / 86400);
    var date, rest := DateAt(s / 86400), s % 86400;
    date.(hour := rest / 3600, minute := rest % 3600 / 60, second := rest % 60)
  }

  lemma SplitSeconds(s: nat)
    requires s < DaysBeforeYear(10000) * 86400
    ensures s / 86400 < DaysBeforeYear(10000) && s == s / 86400 * 86400 + s % 86400
    ensures var rest := s % 86400;
            rest / 3600 < 24 && rest % 3600 / 60 < 60 && rest == rest / 3600 * 3600 + rest % 3600 / 60 * 60 + rest % 60
  {
    hide DaysBeforeYear;
  }

  function DateAt(day: nat): Civil
    requires day < DaysBeforeYear(10000)
  {
    var y := YearAt(day, 0);
    var inYear := day - DaysBeforeYear(y);
    MonthsFillYear(y);
    var m := MonthAt(y, inYear, 1);
    Civil(y, m, inYear - DaysBeforeMonth(y, m) + 1, 0, 0, 0)
  }

  lemma DateAtIs(day: nat)
    requires day < DaysBeforeYear(10000)
    ensures Valid(DateAt(day)) && DayOf(DateAt(day)) == day
    ensures DateAt(day).hour == DateAt(day).minute == DateAt(day).second == 0
  {
    hide DaysBeforeMonth, YearAt, MonthAt;
    MonthsFillYear(YearAt(day, 0));
  }

  function Format(instant: int): Text
    requires Formattable(instant)
  {
    TextOf(CivilAt(instant))
  }

  lemma CivilIsFormattable(c: Civil)
    requires Valid(c)
    ensures Formattable(Instant(c))
  {
    DayWithinYear(c);
    if c.year < 9999 { YearsAscend(c.year, 9999); }
    YearsAscend(9999, 10000);
  }

  /** Parsing and formatting are inverse: each accepted string is the format of its instant, and each
      formattable instant parses back from its text. */
  lemma FormatParseRoundTrip(t: Text, instant: int)
    ensures Parse(t).Some? ==> Formattable(Parse(t).value) && Format(Parse(t).value) == t
    ensures Formattable(instant) ==> Parse(Format(instant)) == Some(instant)
  {
    if Parse(t).Some? {
      AcceptedText(t);
      CivilIsFormattable(CivilOf(t).value);
      CivilOrder(CivilAt(Parse(t).value), CivilOf(t).value);
    }
    if Formattable(instant) {
      TextParses(CivilAt(instant));
    }
  }

  // ---------------------------------------------------------------- in figures

  /** The days of the twelve months and the days before each, in a common year. */
  const MONTH_DAYS: seq<nat> := [31, 28, 31, 30, 31, 30, 31, 31, 30, 31, 30, 31]
  const MONTH_STARTS: seq<nat> := [0, 31, 59, 90, 120, 151, 181, 212, 243, 273, 304, 334]

  lemma {:induction false} MonthsInFigures(y: nat, m: nat)
    requires 1 <= m <= 12
    ensures var leap := y % 4 == 0 && (y % 100 != 0 || y % 400 == 0);
            && MonthLength(y, m) == MONTH_DAYS[m - 1] + (if leap && m == 2 then 1 else 0)
            && DaysBeforeMonth(y, m) == MONTH_STARTS[m - 1] + (if leap && m > 2 then 1 else 0)
  {
    if m > 1 {
      MonthsInFigures(y, m - 1);
    }
  }

  /** The calendar in figures: which dates there are, and the second each one starts, counted from 1970. */
  lemma CalendarInFigures(c: Civil)
    requires 1 <= c.month <= 12
    ensures var leap := c.year % 4 == 0 && (c.year % 100 != 0 || c.year % 400 == 0);
            && (Valid(c) <==>
                  && c.year <= 9999 && c.hour <= 23 && c.minute <= 59 && c.second <= 59
                  && 1 <= c.day <= MONTH_DAYS[c.month - 1] + (if leap && c.month == 2 then 1 else 0))
            && (Valid(c) ==>
                  Instant(c) == (365 * c.year + (c.year + 3) / 4 - (c.year + 99) / 100 + (c.year + 399) / 400
                                 + MONTH_STARTS[c.month - 1] + (if leap && c.month > 2 then 1 else 0)
                                 + c.day - 1 - 719528) * 86400
                                + c.hour * 3600 + c.minute * 60 + c.second)
  {
    MonthsInFigures(c.year, c.month);
    DaysClosedForm(c.year);
    hide DaysBeforeYear, DaysBeforeMonth, MonthLength;
  }

  /** The twenty bytes, one by one. */
  lemma TextInFigures(c: Civil)
    requires Valid(c)
    ensures var t, zero := TextOf(c), '0' as int;
            && t[0] == zero + c.year / 1000 && t[1] == zero + c.year / 100 % 10
            && t[2] == zero + c.year / 10 % 10 && t[3] == zero + c.year % 10
            && t[4] == '-' as int && t[5] == zero + c.month / 10 && t[6] == zero + c.month % 10
            && t[7] == '-' as int && t[8] == zero + c.day / 10 && t[9] == zero + c.day % 10
            && t[10] == 'T' as int && t[11] == zero + c.hour / 10 && t[12] == zero + c.hour % 10
            && t[13] == ':' as int && t[14] == zero + c.minute / 10 && t[15] == zero + c.minute % 10
            && t[16] == ':' as int && t[17] == zero + c.second / 10 && t[18] == zero + c.second % 10
            && t[19] == 'Z' as int
  {
    YearDigits(c.year);
    hide Valid;
  }

  lemma YearDigits(y: nat)
    requires y <= 9999
    ensures y / 100 / 10 == y / 1000
    ensures y % 100 / 10 == y / 10 % 10 && y % 100 % 10 == y % 10
  {}
}
