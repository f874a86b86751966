/** The compact UTC timestamp "YY-MM-DDTHH:MM:SS" and the calendar arithmetic behind it.

    A string is accepted when its six numbers survive date normalisation unchanged:
    the numbers are carried into a day count and read back as a civil date. Nothing in
    that test mentions month lengths or leap years; ValidTimestampIsARealSecond shows
    that it decides them exactly. */
module Calendar {
  import opened Digits

  datatype DateTime = DateTime(year: int, month: int, day: int, hour: int, minute: int, second: int)

  // ------------------------------------------------------------- the calendar

  predicate IsLeap(year: int) {
    year % 4 == 0 && (year % 100 != 0 || year % 400 == 0)
  }

  function DaysInMonth(year: int, month: int): int {
    if month == 2 then (if IsLeap(year) then 29 else 28)
    else if month == 4 || month == 6 || month == 9 || month == 11 then 30
    else 31
  }

  predicate RealDate(year: int, month: int, day: int) {
    1 <= month <= 12 && 1 <= day <= DaysInMonth(year, month)
  }

  /** A second that occurs on the proleptic Gregorian UTC calendar. */
  predicate RealSecond(t: DateTime) {
    && RealDate(t.year, t.month, t.day)
    && 0 <= t.hour < 24 && 0 <= t.minute < 60 && 0 <= t.second < 60
  }

  // ------------------------------------------------- normalisation of a date

  function DaysBeforeYear(year: int): int {
    var o := year - 1;
    365 * o + o / 4 - o / 100 + o / 400
  }

  function DaysBeforeMonth(year: int, month: int): int {
    var leap := if IsLeap(year) then 1 else 0;
    if month <= 1 then 0
    else if month == 2 then 31
    else if month == 3 then 59 + leap
    else if month == 4 then 90 + leap
    else if month == 5 then 120 + leap
    else if month == 6 then 151 + leap
    else if month == 7 then 181 + leap
    else if month == 8 then 212 + leap
    else if month == 9 then 243 + leap
    else if month == 10 then 273 + leap
    else if month == 11 then 304 + leap
    else 334 + leap
  }

  function DayNumber(year: int, month: int, day: int): int {
    DaysBeforeYear(year) + DaysBeforeMonth(year, month) + day - 1
  }

  /** Splits a day count into cycles of 400, 100, 4 and 1 years; the last year of a
      cycle absorbs the leap day. The result is the year and the day within it. */
  function YearAndDay(n: int): (int, int) {
    var a := n / 146097;
    var r := n % 146097;
    var b := if r / 36524 == 4 then 3 else r / 36524;
    var r2 := r - 36524 * b;
    var c := r2 / 1461;
    var r3 := r2 % 1461;
    var e := if r3 / 365 == 4 then 3 else r3 / 365;
    (400 * a + 100 * b + 4 * c + e + 1, r3 - 365 * e)
  }

  function MonthOf(year: int, yday: int): int {
    if yday < DaysBeforeMonth(year, 2) then 1
    else if yday < DaysBeforeMonth(year, 3) then 2
    else if yday < DaysBeforeMonth(year, 4) then 3
    else if yday < DaysBeforeMonth(year, 5) then 4
    else if yday < DaysBeforeMonth(year, 6) then 5
    else if yday < DaysBeforeMonth(year, 7) then 6
    else if yday < DaysBeforeMonth(year, 8) then 7
    else if yday < DaysBeforeMonth(year, 9) then 8
    else if yday < DaysBeforeMonth(year, 10) then 9
    else if yday < DaysBeforeMonth(year, 11) then 10
    else if yday < DaysBeforeMonth(year, 12) then 11
    else 12
  }

  /** Carries the excess of a low-order field into the next field. */
  function Carry(high: int, low: int, base: int): (int, int)
    requires base > 0
  {
    (high + low / base, low % base)
  }

  /** Carries seconds up to days and months up to years; only the day may stay out of range. */
  function Carried(t: DateTime): DateTime {
    var (year, month0) := Carry(t.year, t.month - 1, 12);
    var (minutes, second) := Carry(t.minute, t.second, 60);
    var (hours, minute) := Carry(t.hour, minutes, 60);
    var (day, hour) := Carry(t.day, hours, 24);
    DateTime(year, month0 + 1, day, hour, minute, second)
  }

  function CivilDate(n: int): (int, int, int) {
    var (year, yday) := YearAndDay(n);
    var month := MonthOf(year, yday);
    (year, month, yday - DaysBeforeMonth(year, month) + 1)
  }

  /** Builds a time from fields that may be out of range and reads the fields back. */
  function Normalise(t: DateTime): DateTime {
    var c := Carried(t);
    var (year, month, day) := CivilDate(DayNumber(c.year, c.month, c.day));
    DateTime(year, month, day, c.hour, c.minute, c.second)
  }

  // ------------------------------------------------------- the day-count bijection

  lemma LeapByCycle(a: int, b: int, c: int, e: int)
    requires 0 <= b <= 3 && 0 <= c <= 24 && 0 <= e <= 3
    ensures IsLeap(400 * a + 100 * b + 4 * c + e + 1) <==> e == 3 && (c != 24 || b == 3)
  {
    var year := 400 * a + 100 * b + 4 * c + e + 1;
    assert year == 100 * (4 * a + b) + (4 * c + e + 1);
    if c == 24 && e == 3 {
      assert year == 100 * (4 * a + b + 1);
    } else {
      assert 1 <= 4 * c + e + 1 < 100;
    }
  }

  lemma DaysBeforeYearByCycle(a: int, b: int, c: int, e: int)
    requires 0 <= b <= 3 && 0 <= c <= 24 && 0 <= e <= 3
    ensures DaysBeforeYear(400 * a + 100 * b + 4 * c + e + 1) == 146097 * a + 36524 * b + 1461 * c + 365 * e
  {
    var o := 400 * a + 100 * b + 4 * c + e;
    assert o / 4 == 100 * a + 25 * b + c;
    assert o / 100 == 4 * a + b;
    assert o / 400 == a;
  }

  function DaysInYear(year: int): int {
    if IsLeap(year) then 366 else 365
  }

  /** Reading a day count: the year found contains the day, and counting back gives n. */
  lemma YearAndDayInverts(n: int)
    ensures var (y, d) := YearAndDay(n); 0 <= d < DaysInYear(y) && DaysBeforeYear(y) + d == n
  {
    var a := n / 146097;
    var r := n % 146097;
    var b := if r / 36524 == 4 then 3 else r / 36524;
    CenturyWithin(r);
    var r2 := r - 36524 * b;
    var c := r2 / 1461;
    var r3 := r2 % 1461;
    FourYearsWithin(r2);
    var e := if r3 / 365 == 4 then 3 else r3 / 365;
    YearWithin(r3);
    LeapByCycle(a, b, c, e);
    DaysBeforeYearByCycle(a, b, c, e);
  }

  lemma CenturyWithin(r: int)
    requires 0 <= r < 146097
    ensures var b := if r / 36524 == 4 then 3 else r / 36524;
            0 <= b <= 3 && 0 <= r - 36524 * b <= 36524 && (b < 3 ==> r - 36524 * b < 36524)
  {
  }

  lemma FourYearsWithin(r: int)
    requires 0 <= r <= 36524
    ensures 0 <= r / 1461 <= 24 && 0 <= r % 1461 <= 1460 && r == 1461 * (r / 1461) + r % 1461
    ensures r < 36524 && r / 1461 == 24 ==> r % 1461 < 1460
  {
  }

  lemma YearWithin(r: int)
    requires 0 <= r <= 1460
    ensures var e := if r / 365 == 4 then 3 else r / 365;
            0 <= e <= 3 && 0 <= r - 365 * e <= 365 && (e < 3 || r < 1460 ==> r - 365 * e < 365)
  {
  }

  lemma CycleOf(year: int) returns (a: int, b: int, c: int, e: int)
    ensures 0 <= b <= 3 && 0 <= c <= 24 && 0 <= e <= 3
    ensures year == 400 * a + 100 * b + 4 * c + e + 1
  {
    var o := year - 1;
    a := o / 400;
    var q := o - 400 * a;
    b := q / 100;
    var q2 := q - 100 * b;
    c := q2 / 4;
    e := q2 - 4 * c;
  }

  lemma YearsAreConsecutive(year: int)
    ensures DaysBeforeYear(year + 1) == DaysBeforeYear(year) + DaysInYear(year)
  {
    var a, b, c, e := CycleOf(year);
    LeapByCycle(a, b, c, e);
    DaysBeforeYearByCycle(a, b, c, e);
    if e < 3 {
      DaysBeforeYearByCycle(a, b, c, e + 1);
    } else if c < 24 {
      DaysBeforeYearByCycle(a, b, c + 1, 0);
    } else if b < 3 {
      DaysBeforeYearByCycle(a, b + 1, 0, 0);
    } else {
      DaysBeforeYearByCycle(a + 1, 0, 0, 0);
    }
  }

  lemma {:induction false} YearsIncrease(y: int, z: int)
    requires y < z
    ensures DaysBeforeYear(y) + DaysInYear(y) <= DaysBeforeYear(z)
    decreases z - y
  {
    YearsAreConsecutive(y);
    if y + 1 < z {
      YearsIncrease(y + 1, z);
    }
  }

  lemma YearAndDayOfDate(year: int, yday: int)
    requires 0 <= yday < DaysInYear(year)
    ensures YearAndDay(DaysBeforeYear(year) + yday) == (year, yday)
  {
    var n := DaysBeforeYear(year) + yday;
    YearAndDayInverts(n);
    var (y, d) := YearAndDay(n);
    if y < year {
      YearsIncrease(y, year);
    } else if year < y {
      YearsIncrease(year, y);
    }
  }

  lemma MonthOfDate(year: int, month: int, day: int)
    requires RealDate(year, month, day)
    ensures 0 <= DaysBeforeMonth(year, month) + day - 1 < DaysInYear(year)
    ensures MonthOf(year, DaysBeforeMonth(year, month) + day - 1) == month
  {
  }

  lemma MonthOfDayIsReal(year: int, yday: int)
    requires 0 <= yday < DaysInYear(year)
    ensures RealDate(year, MonthOf(year, yday), yday - DaysBeforeMonth(year, MonthOf(year, yday)) + 1)
  {
  }

  lemma CivilDateIsReal(n: int)
    ensures var (year, month, day) := CivilDate(n); RealDate(year, month, day)
  {
    YearAndDayInverts(n);
    var (year, yday) := YearAndDay(n);
    MonthOfDayIsReal(year, yday);
  }

  lemma CivilDateOfDayNumber(year: int, month: int, day: int)
    requires RealDate(year, month, day)
    ensures CivilDate(DayNumber(year, month, day)) == (year, month, day)
  {
    MonthOfDate(year, month, day);
    YearAndDayOfDate(year, DaysBeforeMonth(year, month) + day - 1);
  }

  lemma CarriedClock(t: DateTime)
    ensures var c := Carried(t); 0 <= c.hour < 24 && 0 <= c.minute < 60 && 0 <= c.second < 60
    ensures RealSecond(t) ==> Carried(t) == t
  {
    if RealSecond(t) {
      CarryNothing(t.year, t.month - 1, 12);
      CarryNothing(t.minute, t.second, 60);
      CarryNothing(t.hour, t.minute, 60);
      CarryNothing(t.day, t.hour, 24);
    }
  }

  lemma CarryNothing(high: int, low: int, base: int)
    requires 0 <= low < base
    ensures Carry(high, low, base) == (high, low)
  {
  }

  /** Normalisation always produces a real second... */
  lemma NormaliseIsReal(t: DateTime)
    ensures RealSecond(Normalise(t))
  {
    var c := Carried(t);
    CarriedClock(t);
    CivilDateIsReal(DayNumber(c.year, c.month, c.day));
  }

  /** ...and moves every field set that is not one: over all integers, the fields left
      alone are exactly the real seconds. */
  lemma NormaliseFixesExactlyRealSeconds(t: DateTime)
    ensures Normalise(t) == t <==> RealSecond(t)
  {
    NormaliseIsReal(t);
    if RealSecond(t) {
      CarriedClock(t);
      CivilDateOfDayNumber(t.year, t.month, t.day);
    }
  }

  // ------------------------------------------------------------- the compact text

  function DigitChar(d: int): char
    requires 0 <= d <= 9
  {
    (d + '0' as int) as char
  }

  /** Two decimal digits, as the "06", "01", "02", "15", "04" and "05" layouts print them. */
  function Two(n: int): (text: string)
    requires 0 <= n < 100
    ensures |text| == 2
  {
    [DigitChar(n / 10), DigitChar(n % 10)]
  }

  function Compact(t: DateTime): (text: string)
    requires RealSecond(t)
    ensures |text| == 17
  {
    Two(t.year % 100) + "-" + Two(t.month) + "-" + Two(t.day) + "T" +
    Two(t.hour) + ":" + Two(t.minute) + ":" + Two(t.second)
  }

  /** Minus one for anything but a non-empty run of digits that fits a 64-bit integer. */
  function ParsedDecimal(text: string): int {
    if text == "" || !AllDigits(text) then -1
    else if DigitsValue(text) > 0x7fff_ffff_ffff_ffff then -1
    else DigitsValue(text)
  }

  method ParseDecimal(value: string) returns (parsed: int)
    ensures parsed == ParsedDecimal(value)
  {
    for i := 0 to |value|
      invariant forall j | 0 <= j < i :: IsDigit(value[j])
    {
      if !IsDigit(value[i]) {
        assert value[i] in value;
        return -1;
      }
    }
    if value == "" {
      return -1;
    }
    var total := 0;
    for i := 0 to |value|
      invariant total == DigitsValue(value[..i])
    {
      assert value[..i + 1][..i] == value[..i];
      total := total * 10 + DigitValue(value[i]);
    }
    assert value[..|value|] == value;
    return if total > 0x7fff_ffff_ffff_ffff then -1 else total;
  }

  predicate CompactShape(s: string) {
    |s| == 17 && s[2] == '-' && s[5] == '-' && s[8] == 'T' && s[11] == ':' && s[14] == ':'
  }

  function Parts(s: string): seq<int>
    requires |s| == 17
  {
    [ParsedDecimal(s[0..2]), ParsedDecimal(s[3..5]), ParsedDecimal(s[6..8]),
     ParsedDecimal(s[9..11]), ParsedDecimal(s[12..14]), ParsedDecimal(s[15..17])]
  }

  function PartsTime(parts: seq<int>): DateTime
    requires |parts| == 6
  {
    DateTime(2000 + parts[0], parts[1], parts[2], parts[3], parts[4], parts[5])
  }

  predicate ValidTimestamp(s: string) {
    && CompactShape(s)
    && (forall i | 0 <= i < 6 :: Parts(s)[i] >= 0)
    && Normalise(PartsTime(Parts(s))) == PartsTime(Parts(s))
  }

  /** s is the compact form of a real second of the years 2000 to 2099. */
  ghost predicate NamesRealSecond(s: string) {
    exists t: DateTime :: RealSecond(t) && 2000 <= t.year <= 2099 && s == Compact(t)
  }

  method ParseParts(value: string) returns (parts: seq<int>)
    requires |value| == 17
    ensures parts == Parts(value)
  {
    var year := ParseDecimal(value[0..2]);
    var month := ParseDecimal(value[3..5]);
    var day := ParseDecimal(value[6..8]);
    var hour := ParseDecimal(value[9..11]);
    var minute := ParseDecimal(value[12..14]);
    var second := ParseDecimal(value[15..17]);
    return [year, month, day, hour, minute, second];
  }

  method CheckTimestamp(value: string) returns (ok: bool)
    ensures ok == ValidTimestamp(value)
    ensures ok <==> NamesRealSecond(value)
  {
    hide Normalise, NamesRealSecond, ParsedDecimal;
    ValidTimestampIsARealSecond(value);
    if |value| != 17 || value[2] != '-' || value[5] != '-' || value[8] != 'T' || value[11] != ':' || value[14] != ':' {
      return false;
    }
    var parts := ParseParts(value);
    for i := 0 to |parts|
      invariant forall j | 0 <= j < i :: parts[j] >= 0
    {
      if parts[i] < 0 {
        return false;
      }
    }
    var given := PartsTime(parts);
    return Normalise(given) == given;
  }

  lemma ParsedPair(text: string)
    requires |text| == 2
    ensures ParsedDecimal(text) >= 0 <==> IsDigit(text[0]) && IsDigit(text[1])
    ensures ParsedDecimal(text) >= 0 ==> 0 <= ParsedDecimal(text) < 100 && text == Two(ParsedDecimal(text))
  {
    assert text == [text[0], text[1]];
    if IsDigit(text[0]) && IsDigit(text[1]) {
      assert forall c | c in text :: c == text[0] || c == text[1];
      assert text[..1] == [text[0]];
      assert [text[0]][..0] == "";
      assert DigitsValue([text[0]]) == DigitValue(text[0]);
      assert DigitsValue(text) == DigitValue(text[0]) * 10 + DigitValue(text[1]);
    } else {
      assert text[0] in text && text[1] in text;
    }
  }

  lemma ParsedTwo(n: int)
    requires 0 <= n < 100
    ensures ParsedDecimal(Two(n)) == n
  {
    ParsedPair(Two(n));
    var m := ParsedDecimal(Two(n));
    assert Two(m)[0] == Two(n)[0] && Two(m)[1] == Two(n)[1];
    assert m / 10 == n / 10 && m % 10 == n % 10;
  }

  lemma CompactParts(t: DateTime)
    requires RealSecond(t)
    ensures CompactShape(Compact(t))
    ensures Parts(Compact(t)) == [t.year % 100, t.month, t.day, t.hour, t.minute, t.second]
  {
    var s := Compact(t);
    assert s[0..2] == Two(t.year % 100);
    assert s[3..5] == Two(t.month);
    assert s[6..8] == Two(t.day);
    assert s[9..11] == Two(t.hour);
    assert s[12..14] == Two(t.minute);
    assert s[15..17] == Two(t.second);
    ParsedTwo(t.year % 100);
    ParsedTwo(t.month);
    ParsedTwo(t.day);
    ParsedTwo(t.hour);
    ParsedTwo(t.minute);
    ParsedTwo(t.second);
  }

  lemma LeapInCentury(year: int)
    requires IsLeap(year)
    ensures IsLeap(2000 + year % 100)
  {
    var c, y := year / 100, year % 100;
    FourDivides(year / 4, c, y);
    if y != 0 {
      WithinCentury(y);
    }
  }

  lemma FourDivides(q: int, c: int, y: int)
    requires 4 * q == 100 * c + y
    ensures (2000 + y) % 4 == 0
  {
    assert 2000 + y == 4 * (500 + q - 25 * c);
  }

  lemma WithinCentury(y: int)
    requires 0 < y < 100
    ensures (2000 + y) % 100 != 0
  {
  }

  /** A day that is real in some century is real in the century 2000-2099. */
  lemma CenturyMoves(t: DateTime)
    requires RealSecond(t)
    ensures RealSecond(t.(year := 2000 + t.year % 100))
  {
    hide IsLeap;
    if IsLeap(t.year) {
      LeapInCentury(t.year);
    }
  }

  /** The compact form of every real second of every year is accepted. */
  lemma CompactIsAccepted(t: DateTime)
    requires RealSecond(t)
    ensures ValidTimestamp(Compact(t))
  {
    hide Compact, Normalise, Parts, CompactShape;
    var moved := t.(year := 2000 + t.year % 100);
    CompactParts(t);
    assert PartsTime(Parts(Compact(t))) == moved;
    CenturyMoves(t);
    NormaliseFixesExactlyRealSeconds(moved);
    assert t.year % 100 >= 0 && t.month >= 0 && t.day >= 0 && t.hour >= 0 && t.minute >= 0 && t.second >= 0;
  }

  lemma PartsRebuild(s: string)
    requires CompactShape(s) && forall i | 0 <= i < 6 :: Parts(s)[i] >= 0
    requires RealSecond(PartsTime(Parts(s)))
    ensures 2000 <= PartsTime(Parts(s)).year <= 2099
    ensures s == Compact(PartsTime(Parts(s)))
  {
    var p := Parts(s);
    ParsedPair(s[0..2]);
    ParsedPair(s[3..5]);
    ParsedPair(s[6..8]);
    ParsedPair(s[9..11]);
    ParsedPair(s[12..14]);
    ParsedPair(s[15..17]);
    assert p[0] >= 0 && p[1] >= 0 && p[2] >= 0 && p[3] >= 0 && p[4] >= 0 && p[5] >= 0;
    assert (2000 + p[0]) % 100 == p[0];
    assert s == s[0..2] + [s[2]] + s[3..5] + [s[5]] + s[6..8] + [s[8]] +
                s[9..11] + [s[11]] + s[12..14] + [s[14]] + s[15..17];
  }

  lemma ValidTimestampIsARealSecond(s: string)
    ensures ValidTimestamp(s) <==> NamesRealSecond(s)
  {
    if ValidTimestamp(s) {
      NormaliseFixesExactlyRealSeconds(PartsTime(Parts(s)));
      PartsRebuild(s);
    }
    if NamesRealSecond(s) {
      var t: DateTime :| RealSecond(t) && 2000 <= t.year <= 2099 && s == Compact(t);
      CompactIsAccepted(t);
    }
  }

  // ------------------------------------------------------------- text order is time order

  function Seconds(t: DateTime): int {
    ((DayNumber(t.year, t.month, t.day) * 24 + t.hour) * 60 + t.minute) * 60 + t.second
  }

  predicate TextLess(a: string, b: string) {
    if b == "" then false
    else if a == "" then true
    else a[0] < b[0] || (a[0] == b[0] && TextLess(a[1..], b[1..]))
  }

  lemma {:induction false} TextLessSplits(p: string, q: string, a: string, b: string)
    requires |p| == |q|
    ensures TextLess(p + a, q + b) <==> TextLess(p, q) || (p == q && TextLess(a, b))
  {
    if p == "" {
      assert p + a == a && q + b == b;
    } else {
      assert (p + a)[1..] == p[1..] + a && (q + b)[1..] == q[1..] + b;
      TextLessSplits(p[1..], q[1..], a, b);
      assert p == [p[0]] + p[1..] && q == [q[0]] + q[1..];
    }
  }

  lemma TwoOrder(x: int, y: int)
    requires 0 <= x < 100 && 0 <= y < 100
    ensures TextLess(Two(x), Two(y)) <==> x < y
    ensures Two(x) == Two(y) <==> x == y
  {
    ParsedTwo(x);
    ParsedTwo(y);
    var a, b := Two(x), Two(y);
    assert a[1..] == [a[1]] && b[1..] == [b[1]];
    assert [a[1]][1..] == "" && [b[1]][1..] == "";
    assert TextLess([a[1]], [b[1]]) <==> a[1] < b[1];
    assert TextLess(a, b) <==> a[0] < b[0] || (a[0] == b[0] && a[1] < b[1]);
    assert x == 10 * (x / 10) + x % 10 && y == 10 * (y / 10) + y % 10;
    assert a[0] as int == x / 10 + 48 && b[0] as int == y / 10 + 48;
    assert a[1] as int == x % 10 + 48 && b[1] as int == y % 10 + 48;
  }

  /** One field of the text, followed by a separator and the rest. */
  lemma FieldOrder(x: int, y: int, sep: string, a: string, b: string)
    requires 0 <= x < 100 && 0 <= y < 100
    ensures TextLess(Two(x) + sep + a, Two(y) + sep + b) <==> x < y || (x == y && TextLess(a, b))
  {
    TwoOrder(x, y);
    TextLessSplits(Two(x) + sep, Two(y) + sep, a, b);
    TextLessSplits(Two(x), Two(y), sep, sep);
    TextLessIrreflexive(sep);
    assert Two(x) + sep == Two(y) + sep ==> Two(x) == (Two(x) + sep)[..2] == (Two(y) + sep)[..2] == Two(y);
  }

  lemma {:induction false} TextLessIrreflexive(a: string)
    ensures !TextLess(a, a)
  {
    if a != "" {
      TextLessIrreflexive(a[1..]);
    }
  }

  predicate FieldsLess(t: DateTime, u: DateTime) {
    || t.year < u.year
    || (t.year == u.year && (t.month < u.month
    || (t.month == u.month && (t.day < u.day
    || (t.day == u.day && (t.hour < u.hour
    || (t.hour == u.hour && (t.minute < u.minute
    || (t.minute == u.minute && t.second < u.second)))))))))
  }

  lemma DatesIncrease(t: DateTime, u: DateTime)
    requires RealSecond(t) && RealSecond(u)
    requires t.year < u.year || (t.year == u.year && (t.month < u.month || (t.month == u.month && t.day < u.day)))
    ensures DayNumber(t.year, t.month, t.day) < DayNumber(u.year, u.month, u.day)
  {
    MonthOfDate(t.year, t.month, t.day);
    MonthOfDate(u.year, u.month, u.day);
    if t.year < u.year {
      YearsIncrease(t.year, u.year);
    }
  }

  lemma FieldsLessIsEarlier(t: DateTime, u: DateTime)
    requires RealSecond(t) && RealSecond(u)
    requires FieldsLess(t, u)
    ensures Seconds(t) < Seconds(u)
  {
    if t.year != u.year || t.month != u.month || t.day != u.day {
      DatesIncrease(t, u);
    }
  }

  lemma TextOrderIsFieldOrder(t: DateTime, u: DateTime)
    requires RealSecond(t) && RealSecond(u) && 2000 <= t.year <= 2099 && 2000 <= u.year <= 2099
    ensures TextLess(Compact(t), Compact(u)) <==> FieldsLess(t, u)
  {
    hide Two, TextLess;
    var t5, u5 := Two(t.second), Two(u.second);
    var t4, u4 := Two(t.minute) + ":" + t5, Two(u.minute) + ":" + u5;
    var t3, u3 := Two(t.hour) + ":" + t4, Two(u.hour) + ":" + u4;
    var t2, u2 := Two(t.day) + "T" + t3, Two(u.day) + "T" + u3;
    var t1, u1 := Two(t.month) + "-" + t2, Two(u.month) + "-" + u2;
    TwoOrder(t.second, u.second);
    FieldOrder(t.minute, u.minute, ":", t5, u5);
    FieldOrder(t.hour, u.hour, ":", t4, u4);
    FieldOrder(t.day, u.day, "T", t3, u3);
    FieldOrder(t.month, u.month, "-", t2, u2);
    FieldOrder(t.year % 100, u.year % 100, "-", t1, u1);
    assert Compact(t) == Two(t.year % 100) + "-" + t1;
    assert Compact(u) == Two(u.year % 100) + "-" + u1;
    assert t.year % 100 == t.year - 2000 && u.year % 100 == u.year - 2000;
  }

  /** Within 2000-2099 the compact texts sort as the moments they name. */
  lemma TextOrderIsTimeOrder(t: DateTime, u: DateTime)
    requires RealSecond(t) && RealSecond(u) && 2000 <= t.year <= 2099 && 2000 <= u.year <= 2099
    ensures TextLess(Compact(t), Compact(u)) <==> Seconds(t) < Seconds(u)
  {
    TextOrderIsFieldOrder(t, u);
    if FieldsLess(t, u) {
      FieldsLessIsEarlier(t, u);
    } else if t != u {
      FieldsLessIsEarlier(u, t);
    }
  }
}
