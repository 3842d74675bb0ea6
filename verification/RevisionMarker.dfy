/**
 services/models.py: `get_update_marker`, the text a session carries to notice that its row was
 rewritten. Calendar arithmetic is the proleptic Gregorian calendar of datetime, years 1 to 9999;
 the printed form is the date-time of section 5.6 of RFC 3339 with six fraction digits.
 */
module RevisionMarker {
  import opened Results

  // ---- Calendar ----

  predicate IsLeap(y: nat) { y % 4 == 0 && (y % 100 != 0 || y % 400 == 0) }

  function DaysInMonth(y: nat, m: nat): nat {
    if m == 2 then (if IsLeap(y) then 29 else 28)
    else if m == 4 || m == 6 || m == 9 || m == 11 then 30 else 31
  }

  function DaysInYear(y: nat): nat { if IsLeap(y) then 366 else 365 }

  /** Days from 0001-01-01 to the first day of year `y`. */
  function DaysBeforeYear(y: nat): nat
    requires y >= 1
  {
    if y == 1 then 0 else DaysBeforeYear(y - 1) + DaysInYear(y - 1)
  }

  function DaysBeforeMonth(y: nat, m: nat): nat
    requires m >= 1
  {
    if m == 1 then 0 else DaysBeforeMonth(y, m - 1) + DaysInMonth(y, m - 1)
  }

  const DAY: int := 86_400_000_000
  const MAX_YEAR := 9999

  /** Wall-clock fields of a datetime; `offset` is its UTC offset in microseconds, None when naive. */
  datatype DateTime = DateTime(
    year: nat, month: nat, day: nat,
    hour: nat, minute: nat, second: nat, microsecond: nat,
    offset: Option<int>)

  predicate Valid(t: DateTime) {
    && 1 <= t.year <= MAX_YEAR
    && 1 <= t.month <= 12
    && 1 <= t.day <= DaysInMonth(t.year, t.month)
    && t.hour < 24 && t.minute < 60 && t.second < 60 && t.microsecond < 1_000_000
    && (t.offset.Some? ==> -DAY < t.offset.value < DAY)
  }

  function DayNumber(t: DateTime): nat
    requires Valid(t)
  {
    DaysBeforeYear(t.year) + DaysBeforeMonth(t.year, t.month) + (t.day - 1)
  }

  function TimeOfDay(t: DateTime): nat {
    ((t.hour * 60 + t.minute) * 60 + t.second) * 1_000_000 + t.microsecond
  }

  /** Microseconds from 0001-01-01T00:00 to the wall-clock reading. */
  function WallClock(t: DateTime): nat
    requires Valid(t)
  {
    DayNumber(t) * DAY + TimeOfDay(t)
  }

  /** The instant of an aware value, on the same scale in UTC. */
  function Instant(t: DateTime): int
    requires Valid(t) && t.offset.Some?
  {
    WallClock(t) - t.offset.value
  }

  predicate Representable(u: int) { 0 <= u < DaysBeforeYear(MAX_YEAR + 1) * DAY }

  // ---- From an instant back to fields (astimezone) ----

  function YearOf(day: nat, y: nat): (r: nat)
    requires 1 <= y <= MAX_YEAR
    requires DaysBeforeYear(y) <= day < DaysBeforeYear(MAX_YEAR + 1)
    ensures y <= r <= MAX_YEAR
    ensures DaysBeforeYear(r) <= day < DaysBeforeYear(r + 1)
    decreases MAX_YEAR - y
  {
    if day < DaysBeforeYear(y + 1) then y else YearOf(day, y + 1)
  }

  function MonthOf(y: nat, day: nat, m: nat): (r: nat)
    requires 1 <= m <= 12
    requires DaysBeforeMonth(y, m) <= day < DaysBeforeMonth(y, 13)
    ensures m <= r <= 12
    ensures DaysBeforeMonth(y, r) <= day < DaysBeforeMonth(y, r + 1)
    decreases 12 - m
  {
    if m == 12 || day < DaysBeforeMonth(y, m + 1) then m else MonthOf(y, day, m + 1)
  }

  lemma MonthsFillYear(y: nat)
    ensures DaysBeforeMonth(y, 13) == DaysInYear(y)
  {
    assert DaysBeforeMonth(y, 2) == 31;
    assert DaysBeforeMonth(y, 4) == DaysBeforeMonth(y, 3) + 31;
    assert DaysBeforeMonth(y, 6) == DaysBeforeMonth(y, 4) + 61;
    assert DaysBeforeMonth(y, 8) == DaysBeforeMonth(y, 6) + 61;
    assert DaysBeforeMonth(y, 10) == DaysBeforeMonth(y, 8) + 61;
    assert DaysBeforeMonth(y, 12) == DaysBeforeMonth(y, 10) + 61;
  }

  function InUtc(u: nat): (t: DateTime)
    requires Representable(u)
    ensures Valid(t) && t.offset == Some(0) && WallClock(t) == u
  {
    var day, time := u / DAY, u % DAY;
    var y := YearOf(day, 1);
    MonthsFillYear(y);
    var inYear := day - DaysBeforeYear(y);
    var m := MonthOf(y, inYear, 1);
    var t := DateTime(y, m, inYear - DaysBeforeMonth(y, m) + 1,
                      time / 3_600_000_000, time / 60_000_000 % 60, time / 1_000_000 % 60,
                      time % 1_000_000, Some(0));
    TimeFields(time);
    assert DayNumber(t) == day;
    t
  }

  lemma TimeFields(time: nat)
    ensures ((time / 3_600_000_000 * 60 + time / 60_000_000 % 60) * 60 + time / 1_000_000 % 60) * 1_000_000
            + time % 1_000_000 == time
    ensures time < DAY ==> time / 3_600_000_000 < 24
  {
    var s := time / 1_000_000;
    assert time / 60_000_000 == s / 60;
    assert time / 3_600_000_000 == s / 60 / 60;
  }

  // ---- Fixed-width printing ----

  function Digits(n: nat, width: nat): (s: string)
    ensures |s| == width
  {
    if width == 0 then "" else Digits(n / 10, width - 1) + [(48 + n % 10) as char]
  }

  function Pow10(w: nat): nat { if w == 0 then 1 else 10 * Pow10(w - 1) }

  /** Numbers to print at fixed widths, each followed by its separator. */
  datatype Layout = Done | Field(value: nat, width: nat, after: string, rest: Layout)

  function Print(f: Layout): string {
    match f
    case Done => ""
    case Field(v, w, sep, rest) => Digits(v, w) + (sep + Print(rest))
  }

  function TimeLayout(t: DateTime): Layout {
    Field(t.hour, 2, ":", Field(t.minute, 2, ":", Field(t.second, 2, ".",
      Field(t.microsecond, 6, if t.offset.Some? then "+00:00" else "", Done))))
  }

  function DateLayout(t: DateTime, time: Layout): Layout {
    Field(t.year, 4, "-", Field(t.month, 2, "-", Field(t.day, 2, "T", time)))
  }

  /** isoformat(timespec="microseconds"), for a naive value or one in UTC. */
  function IsoFormat(t: DateTime): string
    requires t.offset.None? || t.offset.value == 0
  {
    Print(DateLayout(t, TimeLayout(t)))
  }

  /** get_update_marker; conversion to UTC overflows outside years 1 to 9999. */
  function UpdateMarker(t: DateTime): Result<string>
    requires Valid(t)
  {
    if t.offset.None? then Ok(IsoFormat(t))
    else if Representable(Instant(t)) then Ok(IsoFormat(InUtc(Instant(t))))
    else Raise(OtherError)
  }

  // ---- String order is field order ----

  predicate Before(s: string, t: string) {
    if s == "" || t == "" then s == "" && t != ""
    else if s[0] != t[0] then s[0] < t[0]
    else Before(s[1..], t[1..])
  }

  predicate FieldsBefore(f: Layout, g: Layout) {
    f.Field? && g.Field? && (f.value < g.value || (f.value == g.value && FieldsBefore(f.rest, g.rest)))
  }

  lemma {:induction false} BeforeConcat(a: string, b: string, c: string, d: string)
    requires |a| == |c|
    ensures Before(a + b, c + d) <==> Before(a, c) || (a == c && Before(b, d))
    ensures a + b == c + d <==> a == c && b == d
  {
    if a == "" {
      assert a + b == b && c + d == d;
    } else {
      assert (a + b)[1..] == a[1..] + b && (c + d)[1..] == c[1..] + d;
      assert a == [a[0]] + a[1..] && c == [c[0]] + c[1..];
      BeforeConcat(a[1..], b, c[1..], d);
      assert (a + b)[0] == a[0] && (c + d)[0] == c[0];
      if a + b == c + d {
        assert (a + b)[0] == (c + d)[0] && (a + b)[1..] == (c + d)[1..];
      }
    }
  }

  lemma {:induction false} DigitsOrder(m: nat, n: nat, w: nat)
    requires m < Pow10(w) && n < Pow10(w)
    ensures Before(Digits(m, w), Digits(n, w)) <==> m < n
    ensures Digits(m, w) == Digits(n, w) <==> m == n
  {
    if w > 0 {
      DigitsOrder(m / 10, n / 10, w - 1);
      var a, b := [(48 + m % 10) as char], [(48 + n % 10) as char];
      BeforeConcat(Digits(m / 10, w - 1), a, Digits(n / 10, w - 1), b);
      assert Before(a, b) <==> m % 10 < n % 10 by {
        assert a[1..] == "" && b[1..] == "";
      }
      assert a == b <==> a[0] == b[0];
    }
  }

  predicate SameShape(f: Layout, g: Layout) {
    match f
    case Done => g.Done?
    case Field(v, w, sep, rest) =>
      && g.Field? && g.width == w && g.after == sep
      && v < Pow10(w) && g.value < Pow10(w)
      && SameShape(rest, g.rest)
  }

  lemma {:induction false} PrintOrder(f: Layout, g: Layout)
    requires SameShape(f, g)
    ensures Before(Print(f), Print(g)) <==> FieldsBefore(f, g)
    ensures Print(f) == Print(g) <==> f == g
  {
    if f.Field? {
      PrintOrder(f.rest, g.rest);
      FieldOrder(f.value, g.value, f.width, f.after, Print(f.rest), Print(g.rest));
    }
  }

  lemma FieldOrder(v: nat, v': nat, w: nat, sep: string, rest: string, rest': string)
    requires v < Pow10(w) && v' < Pow10(w)
    ensures Before(Digits(v, w) + (sep + rest), Digits(v', w) + (sep + rest')) <==>
              v < v' || (v == v' && Before(rest, rest'))
    ensures Digits(v, w) + (sep + rest) == Digits(v', w) + (sep + rest') <==> v == v' && rest == rest'
  {
    DigitsOrder(v, v', w);
    BeforeConcat(sep, rest, sep, rest');
    BeforeSelf(sep);
    BeforeConcat(Digits(v, w), sep + rest, Digits(v', w), sep + rest');
  }

  lemma BeforeSelf(s: string)
    ensures !Before(s, s)
  {
  }

  // ---- Field order is time order ----

  lemma {:induction false} YearsGrow(y: nat, y': nat)
    requires 1 <= y < y'
    ensures DaysBeforeYear(y) + DaysInYear(y) <= DaysBeforeYear(y')
  {
    if y + 1 < y' {
      YearsGrow(y, y' - 1);
    }
  }

  lemma {:induction false} MonthsGrow(y: nat, m: nat, m': nat)
    requires 1 <= m < m'
    ensures DaysBeforeMonth(y, m) + DaysInMonth(y, m) <= DaysBeforeMonth(y, m')
  {
    if m + 1 < m' {
      MonthsGrow(y, m, m' - 1);
    }
  }

  predicate DateBefore(s: DateTime, t: DateTime) {
    || s.year < t.year
    || (s.year == t.year && (s.month < t.month || (s.month == t.month && s.day < t.day)))
  }

  lemma DateOrder(s: DateTime, t: DateTime)
    requires Valid(s) && Valid(t) && DateBefore(s, t)
    ensures DayNumber(s) < DayNumber(t)
  {
    if s.month < 13 { MonthsGrow(s.year, s.month, 13); }
    MonthsFillYear(s.year);
    if s.year < t.year {
      YearsGrow(s.year, t.year);
    } else if s.month < t.month {
      MonthsGrow(s.year, s.month, t.month);
    }
  }

  predicate TimeBefore(s: DateTime, t: DateTime) {
    || s.hour < t.hour
    || (s.hour == t.hour && (s.minute < t.minute
    || (s.minute == t.minute && (s.second < t.second
    || (s.second == t.second && s.microsecond < t.microsecond)))))
  }

  lemma TimeOrder(s: DateTime, t: DateTime)
    requires Valid(s) && Valid(t)
    ensures TimeOfDay(s) < TimeOfDay(t) <==> TimeBefore(s, t)
    ensures TimeOfDay(s) < DAY
  {
  }

  predicate SameFields(s: DateTime, t: DateTime) {
    t == s.(offset := t.offset)
  }

  lemma WallClockOrder(s: DateTime, t: DateTime)
    requires Valid(s) && Valid(t)
    ensures WallClock(s) < WallClock(t) <==> DateBefore(s, t) || (!DateBefore(t, s) && TimeBefore(s, t))
    ensures WallClock(s) == WallClock(t) <==> SameFields(s, t)
  {
    TimeOrder(s, t);
    TimeOrder(t, s);
    if DateBefore(s, t) {
      DateOrder(s, t);
      assert (DayNumber(t) - DayNumber(s)) * DAY >= DAY;
    } else if DateBefore(t, s) {
      DateOrder(t, s);
      assert (DayNumber(s) - DayNumber(t)) * DAY >= DAY;
    } else {
      assert DayNumber(s) == DayNumber(t);
    }
  }

  lemma IsoOrder(s: DateTime, t: DateTime)
    requires Valid(s) && Valid(t)
    requires s.offset == t.offset && (s.offset.Some? ==> s.offset.value == 0)
    ensures Before(IsoFormat(s), IsoFormat(t)) <==> WallClock(s) < WallClock(t)
    ensures IsoFormat(s) == IsoFormat(t) <==> WallClock(s) == WallClock(t)
  {
    LayoutsAlike(s, t);
    PrintOrder(DateLayout(s, TimeLayout(s)), DateLayout(t, TimeLayout(t)));
    WallClockOrder(s, t);
    LayoutOrder(s, t);
  }

  lemma LayoutsAlike(s: DateTime, t: DateTime)
    requires Valid(s) && Valid(t) && s.offset == t.offset
    ensures SameShape(DateLayout(s, TimeLayout(s)), DateLayout(t, TimeLayout(t)))
  {
    Widths();
    var f, g := TimeLayout(s), TimeLayout(t);
    assert SameShape(f.rest.rest, g.rest.rest);
    assert SameShape(f, g);
    var d, e := DateLayout(s, f), DateLayout(t, g);
    assert SameShape(d.rest.rest, e.rest.rest);
    assert d.value < 10000 && e.value < 10000;
  }

  lemma Widths()
    ensures Pow10(2) == 100 && Pow10(4) == 10000 && Pow10(6) == 1_000_000
  {
    assert Pow10(3) == 1000;
    assert Pow10(5) == 100_000;
  }

  lemma LayoutOrder(s: DateTime, t: DateTime)
    ensures FieldsBefore(DateLayout(s, TimeLayout(s)), DateLayout(t, TimeLayout(t))) <==>
              DateBefore(s, t) || (!DateBefore(t, s) && TimeBefore(s, t))
    ensures s.offset == t.offset ==> (DateLayout(s, TimeLayout(s)) == DateLayout(t, TimeLayout(t)) <==> SameFields(s, t))
  {
    var f, g := TimeLayout(s), TimeLayout(t);
    assert FieldsBefore(f.rest.rest.rest, g.rest.rest.rest) <==> s.microsecond < t.microsecond;
    assert FieldsBefore(f.rest.rest, g.rest.rest) <==>
      s.second < t.second || (s.second == t.second && s.microsecond < t.microsecond);
    assert FieldsBefore(f, g) <==> TimeBefore(s, t);
    var d, e := DateLayout(s, f), DateLayout(t, g);
    assert FieldsBefore(d.rest.rest, e.rest.rest) <==> s.day < t.day || (s.day == t.day && TimeBefore(s, t));
  }

  // ---- The calendar in closed form ----

  /** Leap years: every fourth, but of the centuries only every fourth. */
  lemma {:induction false} YearsClosed(y: nat)
    requires y >= 1
    ensures DaysBeforeYear(y) == 365 * (y - 1) + (y - 1) / 4 - (y - 1) / 100 + (y - 1) / 400
  {
    if y > 1 {
      YearsClosed(y - 1);
      LeapStep(y - 1);
    }
  }

  lemma LeapStep(y: nat)
    requires y >= 1
    ensures y / 4 - y / 100 + y / 400 == (y - 1) / 4 - (y - 1) / 100 + (y - 1) / 400 + (if IsLeap(y) then 1 else 0)
  {
    QuotientStep(y, 4);
    QuotientStep(y, 100);
    QuotientStep(y, 400);
    CenturiesAreFourths(y);
  }

  lemma CenturiesAreFourths(y: nat)
    ensures y % 400 == 0 ==> y % 100 == 0
    ensures y % 100 == 0 ==> y % 4 == 0
  {
    if y % 400 == 0 {
      HundredsDivide(y, 4 * (y / 400));
    }
    if y % 100 == 0 {
      FoursDivide(y, 25 * (y / 100));
    }
  }

  lemma HundredsDivide(y: nat, q: nat)
    requires y == 100 * q
    ensures y % 100 == 0
  {
  }

  lemma FoursDivide(y: nat, q: nat)
    requires y == 4 * q
    ensures y % 4 == 0
  {
  }

  lemma QuotientStep(y: nat, n: nat)
    requires y >= 1 && n in {4, 100, 400}
    ensures y / n == (y - 1) / n + if y % n == 0 then 1 else 0
  {
  }

  const MONTHS: seq<nat> := [0, 31, 59, 90, 120, 151, 181, 212, 243, 273, 304, 334, 365]

  /** Days before each month of a common year; from March on a leap year has one more. */
  lemma MonthsClosed(y: nat, m: nat)
    requires 1 <= m <= 13
    ensures DaysBeforeMonth(y, m) ==
            MONTHS[m - 1] + if m > 2 && y % 4 == 0 && (y % 100 != 0 || y % 400 == 0) then 1 else 0
  {
    assert DaysBeforeMonth(y, 2) == 31;
    assert DaysBeforeMonth(y, 4) == DaysBeforeMonth(y, 3) + 31;
    assert DaysBeforeMonth(y, 6) == DaysBeforeMonth(y, 4) + 61;
    assert DaysBeforeMonth(y, 8) == DaysBeforeMonth(y, 6) + 61;
    assert DaysBeforeMonth(y, 10) == DaysBeforeMonth(y, 8) + 61;
    assert DaysBeforeMonth(y, 12) == DaysBeforeMonth(y, 10) + 61;
  }

  /** Microseconds since 0001-01-01T00:00, from the fields alone. */
  function Microseconds(t: DateTime): int
    requires 1 <= t.month <= 12
  {
    var y := t.year - 1;
    var days := 365 * y + y / 4 - y / 100 + y / 400 + MONTHS[t.month - 1]
                + (if t.month > 2 && t.year % 4 == 0 && (t.year % 100 != 0 || t.year % 400 == 0) then 1 else 0)
                + (t.day - 1);
    days * 86_400_000_000 + t.hour * 3_600_000_000 + t.minute * 60_000_000 + t.second * 1_000_000 + t.microsecond
  }

  /** Which fields name a moment of years 1 to 9999. */
  lemma ValidMeans(t: DateTime)
    ensures Valid(t) <==>
              && 1 <= t.year <= 9999 && 1 <= t.month <= 12
              && 1 <= t.day <= (MONTHS[t.month] - MONTHS[t.month - 1]
                                + if t.month == 2 && t.year % 4 == 0 && (t.year % 100 != 0 || t.year % 400 == 0)
                                  then 1 else 0)
              && t.hour < 24 && t.minute < 60 && t.second < 60 && t.microsecond < 1_000_000
              && (t.offset.Some? ==> -86_400_000_000 < t.offset.value < 86_400_000_000)
  {
  }

  lemma WallClockIs(t: DateTime)
    requires Valid(t)
    ensures WallClock(t) == Microseconds(t)
  {
    YearsClosed(t.year);
    MonthsClosed(t.year, t.month);
  }

  // ---- Reading a printed value back ----

  /** The decimal number a string of digits writes. */
  function ReadNumber(s: string): int {
    if s == "" then 0 else 10 * ReadNumber(s[..|s| - 1]) + (s[|s| - 1] as int - '0' as int)
  }

  predicate AllDigits(s: string) {
    forall i :: 0 <= i < |s| ==> '0' <= s[i] <= '9'
  }

  /** `s` writes `n` in decimal, with as many digits as it has. */
  predicate Writes(s: string, n: nat) {
    AllDigits(s) && ReadNumber(s) == n
  }

  lemma {:induction false} DigitsWrite(n: nat, w: nat)
    requires n < Pow10(w)
    ensures Writes(Digits(n, w), n)
  {
    if w > 0 {
      DigitsWrite(n / 10, w - 1);
      DigitAppends(Digits(n / 10, w - 1), n / 10, n % 10);
    }
  }

  lemma DigitAppends(s: string, n: nat, d: nat)
    requires Writes(s, n) && d < 10
    ensures Writes(s + [(48 + d) as char], 10 * n + d)
  {
    var s' := s + [(48 + d) as char];
    assert s'[..|s'| - 1] == s;
  }

  /** YYYY-MM-DDTHH:MM:SS.ffffff, and +00:00 after it for a value in UTC. */
  ghost predicate Reads(s: string, t: DateTime) {
    && |s| == (if t.offset.None? then 26 else 32)
    && Writes(s[0..4], t.year) && s[4] == '-' && Writes(s[5..7], t.month) && s[7] == '-' && Writes(s[8..10], t.day)
    && s[10] == 'T' && Writes(s[11..13], t.hour) && s[13] == ':' && Writes(s[14..16], t.minute)
    && s[16] == ':' && Writes(s[17..19], t.second) && s[19] == '.' && Writes(s[20..26], t.microsecond)
    && s[26..] == (if t.offset.None? then "" else "+00:00")
  }

  lemma FieldPrints(v: nat, w: nat, sep: string, rest: Layout)
    requires v < Pow10(w)
    ensures var s := Print(Field(v, w, sep, rest));
            && |s| == w + |sep| + |Print(rest)|
            && Writes(s[..w], v) && s[w..w + |sep|] == sep && s[w + |sep|..] == Print(rest)
  {
    DigitsWrite(v, w);
    var s := Print(Field(v, w, sep, rest));
    assert s[..w] == Digits(v, w);
  }

  lemma TimePrints(t: DateTime)
    requires t.hour < 24 && t.minute < 60 && t.second < 60 && t.microsecond < 1_000_000
    ensures var s, end := Print(TimeLayout(t)), if t.offset.None? then "" else "+00:00";
            && |s| == 15 + |end|
            && Writes(s[0..2], t.hour) && s[2] == ':' && Writes(s[3..5], t.minute)
            && s[5] == ':' && Writes(s[6..8], t.second) && s[8] == '.' && Writes(s[9..15], t.microsecond)
            && s[15..] == end
  {
    Widths();
    var h := TimeLayout(t);
    FieldPrints(h.value, h.width, h.after, h.rest);
    MinutesPrint(t);
    var s, tail := Print(h), Print(h.rest);
    assert s[3..] == tail && s[0..2] == s[..2];
    assert s[3..5] == tail[0..2] && s[6..8] == tail[3..5] && s[9..15] == tail[6..12];
    assert s[2..3] == ":" && s[2] == s[2..3][0] && s[5] == tail[2] && s[8] == tail[5];
    assert s[15..] == tail[12..];
  }

  lemma MinutesPrint(t: DateTime)
    requires t.minute < 60 && t.second < 60 && t.microsecond < 1_000_000
    ensures var s, end := Print(TimeLayout(t).rest), if t.offset.None? then "" else "+00:00";
            && |s| == 12 + |end|
            && Writes(s[0..2], t.minute) && s[2] == ':' && Writes(s[3..5], t.second)
            && s[5] == '.' && Writes(s[6..12], t.microsecond)
            && s[12..] == end
  {
    Widths();
    var m := TimeLayout(t).rest;
    FieldPrints(m.value, m.width, m.after, m.rest);
    SecondsPrint(t);
    var s, tail := Print(m), Print(m.rest);
    assert s[3..] == tail && s[0..2] == s[..2];
    assert s[3..5] == tail[0..2] && s[6..12] == tail[3..9];
    assert s[2..3] == ":" && s[2] == s[2..3][0] && s[5] == tail[2];
    assert s[12..] == tail[9..];
  }

  lemma SecondsPrint(t: DateTime)
    requires t.second < 60 && t.microsecond < 1_000_000
    ensures var s, end := Print(TimeLayout(t).rest.rest), if t.offset.None? then "" else "+00:00";
            && |s| == 9 + |end|
            && Writes(s[0..2], t.second) && s[2] == '.' && Writes(s[3..9], t.microsecond)
            && s[9..] == end
  {
    Widths();
    var c := TimeLayout(t).rest.rest;
    var u := c.rest;
    FieldPrints(c.value, c.width, c.after, u);
    FieldPrints(u.value, u.width, u.after, Done);
    var s := Print(c);
    assert s[3..] == Print(u) && s[0..2] == s[..2] && s[3..9] == Print(u)[..6];
    assert s[2..3] == "." && s[2] == s[2..3][0];
    assert s[9..] == Print(u)[6..];
  }

  lemma DayPrints(day: nat, time: Layout)
    requires day <= 31
    ensures var s := Print(Field(day, 2, "T", time));
            |s| == 3 + |Print(time)| && Writes(s[0..2], day) && s[2] == 'T' && s[3..] == Print(time)
  {
    Widths();
    FieldPrints(day, 2, "T", time);
    var s := Print(Field(day, 2, "T", time));
    assert s[0..2] == s[..2] && s[2] == s[2..3][0];
  }

  lemma MonthPrints(month: nat, day: nat, time: Layout)
    requires month <= 12 && day <= 31
    ensures var s := Print(Field(month, 2, "-", Field(day, 2, "T", time)));
            && |s| == 6 + |Print(time)| && Writes(s[0..2], month) && s[2] == '-'
            && Writes(s[3..5], day) && s[5] == 'T' && s[6..] == Print(time)
  {
    Widths();
    var d := Field(day, 2, "T", time);
    FieldPrints(month, 2, "-", d);
    DayPrints(day, time);
    var s, tail := Print(Field(month, 2, "-", d)), Print(d);
    assert s[3..] == tail && s[0..2] == s[..2] && s[2] == s[2..3][0];
    assert s[3..5] == tail[0..2] && s[5] == tail[2] && s[6..] == tail[3..];
  }

  lemma DatePrints(t: DateTime, time: Layout)
    requires t.year <= 9999 && t.month <= 12 && t.day <= 31
    ensures var s := Print(DateLayout(t, time));
            && |s| == 11 + |Print(time)| && Writes(s[0..4], t.year) && s[4] == '-'
            && Writes(s[5..7], t.month) && s[7] == '-' && Writes(s[8..10], t.day) && s[10] == 'T'
            && s[11..] == Print(time)
  {
    Widths();
    var m := Field(t.month, 2, "-", Field(t.day, 2, "T", time));
    FieldPrints(t.year, 4, "-", m);
    MonthPrints(t.month, t.day, time);
    var s, tail := Print(DateLayout(t, time)), Print(m);
    assert s[5..] == tail && s[0..4] == s[..4] && s[4] == s[4..5][0];
    assert s[5..7] == tail[0..2] && s[7] == tail[2] && s[8..10] == tail[3..5] && s[10] == tail[5];
    assert s[11..] == tail[6..];
  }

  lemma TailReads(s: string, time: string)
    requires |s| >= 26 && s[11..] == time
    ensures s[11..13] == time[0..2] && s[13] == time[2] && s[14..16] == time[3..5] && s[16] == time[5]
    ensures s[17..19] == time[6..8] && s[19] == time[8] && s[20..26] == time[9..15] && s[26..] == time[15..]
  {
  }

  /** The printed form says the fields and nothing else. */
  lemma IsoFormatReads(t: DateTime)
    requires Valid(t) && (t.offset.None? || t.offset.value == 0)
    ensures Reads(IsoFormat(t), t)
  {
    TimePrints(t);
    DatePrints(t, TimeLayout(t));
    TailReads(IsoFormat(t), Print(TimeLayout(t)));
  }

  // ---- Properties of the marker ----

  /** Naive rows: the marker is the value printed, it identifies the value, and text order is time order. */
  lemma NaiveMarkers(s: DateTime, t: DateTime)
    requires Valid(s) && Valid(t) && s.offset.None? && t.offset.None?
    ensures UpdateMarker(s).Ok? && Reads(UpdateMarker(s).value, s)
    ensures UpdateMarker(t).Ok? && (UpdateMarker(s) == UpdateMarker(t) <==> s == t)
    ensures Before(UpdateMarker(s).value, UpdateMarker(t).value) <==> Microseconds(s) < Microseconds(t)
  {
    IsoFormatReads(s);
    IsoOrder(s, t);
    WallClockOrder(s, t);
    WallClockIs(s);
    WallClockIs(t);
  }

  /** `u` is the same instant as `t`, read in UTC. */
  ghost predicate SameInstantInUtc(t: DateTime, u: DateTime)
    requires Valid(t) && t.offset.Some?
  {
    Valid(u) && u.offset == Some(0) && Microseconds(u) == Microseconds(t) - t.offset.value
  }

  /** Aware rows: there is a marker exactly if the instant has a UTC form, and it is that form printed. */
  lemma AwareMarkerIs(t: DateTime)
    requires Valid(t) && t.offset.Some?
    ensures UpdateMarker(t).Ok? <==> exists u :: SameInstantInUtc(t, u)
    ensures forall u :: SameInstantInUtc(t, u) ==> UpdateMarker(t).Ok? && Reads(UpdateMarker(t).value, u)
  {
    WallClockIs(t);
    if Representable(Instant(t)) {
      var v := InUtc(Instant(t));
      WallClockIs(v);
      assert SameInstantInUtc(t, v);
    }
    forall u | SameInstantInUtc(t, u)
      ensures Representable(Instant(t)) && u == InUtc(Instant(t)) && Reads(IsoFormat(u), u)
    {
      WallClockIs(u);
      WallClockBounded(u);
      WallClockOrder(u, InUtc(Instant(t)));
      IsoFormatReads(u);
    }
  }

  lemma WallClockBounded(t: DateTime)
    requires Valid(t)
    ensures Representable(WallClock(t))
  {
    YearEnds(t);
    if t.year < 9999 {
      YearsGrow(t.year + 1, 10000);
    }
  }

  lemma YearEnds(t: DateTime)
    requires Valid(t)
    ensures DayNumber(t) < DaysBeforeYear(t.year + 1)
    ensures WallClock(t) < DaysBeforeYear(t.year + 1) * DAY
  {
    MonthsGrow(t.year, t.month, 13);
    MonthsFillYear(t.year);
    TimeOrder(t, t);
  }

  /** Whatever the offsets, markers are equal exactly for one instant, and ordered as instants are. */
  lemma AwareMarkers(s: DateTime, t: DateTime)
    requires Valid(s) && Valid(t) && s.offset.Some? && t.offset.Some?
    ensures UpdateMarker(s).Ok? && UpdateMarker(t).Ok? ==> (
              && (UpdateMarker(s) == UpdateMarker(t) <==>
                    Microseconds(s) - s.offset.value == Microseconds(t) - t.offset.value)
              && (Before(UpdateMarker(s).value, UpdateMarker(t).value) <==>
                    Microseconds(s) - s.offset.value < Microseconds(t) - t.offset.value))
  {
    WallClockIs(s);
    WallClockIs(t);
    if Representable(Instant(s)) && Representable(Instant(t)) {
      IsoOrder(InUtc(Instant(s)), InUtc(Instant(t)));
    }
  }

  function LayoutLength(f: Layout): nat {
    match f
    case Done => 0
    case Field(_, w, sep, rest) => w + |sep| + LayoutLength(rest)
  }

  lemma {:induction false} PrintLength(f: Layout)
    ensures |Print(f)| == LayoutLength(f)
  {
    if f.Field? {
      PrintLength(f.rest);
    }
  }

  lemma MarkerLength(t: DateTime)
    requires Valid(t) && UpdateMarker(t).Ok?
    ensures |UpdateMarker(t).value| == if t.offset.None? then 26 else 32
  {
    var u := if t.offset.None? then t else InUtc(Instant(t));
    PrintLength(DateLayout(u, TimeLayout(u)));
    LayoutsAreFixed(u);
  }

  lemma LayoutsAreFixed(u: DateTime)
    ensures LayoutLength(DateLayout(u, TimeLayout(u))) == if u.offset.None? then 26 else 32
  {
    var f := TimeLayout(u);
    assert LayoutLength(f.rest.rest.rest) == if u.offset.None? then 6 else 12;
    assert LayoutLength(f.rest.rest) == if u.offset.None? then 9 else 15;
    assert LayoutLength(f) == 6 + LayoutLength(f.rest.rest);
    var d := DateLayout(u, f);
    assert LayoutLength(d.rest.rest) == 3 + LayoutLength(f);
  }

  /** A naive and an aware value never share a marker. */
  lemma MarkersNeverCollideAcrossKinds(s: DateTime, t: DateTime)
    requires Valid(s) && Valid(t) && s.offset.None? && t.offset.Some?
    ensures UpdateMarker(s) != UpdateMarker(t)
  {
    MarkerLength(s);
    if UpdateMarker(t).Ok? {
      MarkerLength(t);
    }
  }
}
