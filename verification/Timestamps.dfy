/** Rendering of millisecond timestamps as RFC 3339 text (sections 5.1 and 5.6), and the
    whole-second parse that turns the text back into a checkpoint. The history walk sorts by
    the text, so what matters is when text order is number order. */
module Timestamps {

  const SECONDS_PER_DAY: nat := 86400
  const Y10K_MS: nat := 253_402_300_800_000          // 10000-01-01T00:00:00Z
  const LAST_RENDERABLE_MS: nat := 8_210_266_876_799_999 // end of the year 262142

  // ---- The Gregorian calendar ----

  predicate Leap(year: nat) {
    year % 4 == 0 && (year % 100 != 0 || year % 400 == 0)
  }

  function YearLength(year: nat): nat {
    if Leap(year) then 366 else 365
  }

  function MonthLength(year: nat, month: nat): nat {
    if month == 2 then (if Leap(year) then 29 else 28)
    else if month == 4 || month == 6 || month == 9 || month == 11 then 30
    else 31
  }

  /** Days from the start of year 0 to the start of `year`. */
  function DaysBefore(year: nat): nat {
    365 * year + (year + 3) / 4 + (year + 399) / 400 - (year + 99) / 100
  }

  /** Days from the start of the year to the start of `month`. */
  function DaysBeforeMonth(year: nat, month: nat): nat {
    if month <= 1 then 0 else DaysBeforeMonth(year, month - 1) + MonthLength(year, month - 1)
  }

  datatype Position = Position(unit: nat, offset: nat)

  /** The year that holds a day, counting days from the start of `year`. */
  function YearOf(year: nat, days: nat): Position
    decreases days
  {
    if days < YearLength(year) then Position(year, days)
    else YearOf(year + 1, days - YearLength(year))
  }

  /** The month that holds a day of `year`, counting days from the start of `month`. */
  function MonthOf(year: nat, month: nat, days: nat): Position
    decreases 12 - month
  {
    if month >= 12 || days < MonthLength(year, month) then Position(month, days)
    else MonthOf(year, month + 1, days - MonthLength(year, month))
  }

  lemma DivIs(x: nat, d: nat, q: nat, r: nat)
    requires d == 4 || d == 100 || d == 400
    requires x == q * d + r && r < d
    ensures x / d == q && x % d == r
  {
    if d == 4 {
      assert x / 4 == q;
    } else if d == 100 {
      assert x / 100 == q;
    } else {
      assert x / 400 == q;
    }
  }

  /** Rounding up: the count of multiples of `d` below `n` grows by one exactly past a multiple. */
  lemma CountStep(n: nat, d: nat)
    requires d == 4 || d == 100 || d == 400
    ensures (n + d) / d == (n + d - 1) / d + (if n % d == 0 then 1 else 0)
  {
    if d == 4 {
      CountStep4(n);
    } else if d == 100 {
      CountStep100(n);
    } else {
      CountStep400(n);
    }
  }

  lemma CountStep4(n: nat)
    ensures (n + 4) / 4 == (n + 3) / 4 + (if n % 4 == 0 then 1 else 0)
  {
  }

  lemma CountStep100(n: nat)
    ensures (n + 100) / 100 == (n + 99) / 100 + (if n % 100 == 0 then 1 else 0)
  {
  }

  lemma CountStep400(n: nat)
    ensures (n + 400) / 400 == (n + 399) / 400 + (if n % 400 == 0 then 1 else 0)
  {
  }

  lemma DaysBeforeStep(year: nat)
    ensures DaysBefore(year + 1) == DaysBefore(year) + YearLength(year)
  {
    CountStep(year, 4);
    CountStep(year, 100);
    CountStep(year, 400);
    Multiple(year, 100, 4);
    Multiple(year, 400, 100);
  }

  lemma Multiple(n: nat, big: nat, small: nat)
    requires (big == 100 && small == 4) || (big == 400 && small == 100)
    ensures n % big == 0 ==> n % small == 0
  {
    if n % big == 0 {
      if big == 100 { DivIs(n, 4, n / 100 * 25, 0); } else { DivIs(n, 100, n / 400 * 4, 0); }
    }
  }

  lemma {:induction false} DaysBeforeMonotone(y1: nat, y2: nat)
    requires y1 <= y2
    ensures DaysBefore(y1) <= DaysBefore(y2)
    decreases y2 - y1
  {
    if y1 < y2 {
      DaysBeforeStep(y1);
      DaysBeforeMonotone(y1 + 1, y2);
    }
  }

  /** Walking year by year agrees with the closed leap-year count. */
  lemma {:induction false} YearOfSpan(year: nat, days: nat)
    ensures var p := YearOf(year, days);
            && year <= p.unit
            && p.offset < YearLength(p.unit)
            && DaysBefore(year) + days == DaysBefore(p.unit) + p.offset
    decreases days
  {
    if days >= YearLength(year) {
      DaysBeforeStep(year);
      YearOfSpan(year + 1, days - YearLength(year));
    }
  }

  lemma {:induction false} MonthOfSpan(year: nat, month: nat, days: nat)
    requires 1 <= month <= 12
    requires DaysBeforeMonth(year, month) + days < YearLength(year)
    ensures var p := MonthOf(year, month, days);
            && month <= p.unit <= 12
            && p.offset < MonthLength(year, p.unit) <= 31
            && DaysBeforeMonth(year, month) + days == DaysBeforeMonth(year, p.unit) + p.offset
    decreases 12 - month
  {
    if month == 12 {
      DecemberStart(year);
    } else if days >= MonthLength(year, month) {
      MonthOfSpan(year, month + 1, days - MonthLength(year, month));
    }
  }

  lemma DecemberStart(year: nat)
    ensures DaysBeforeMonth(year, 12) + 31 == YearLength(year)
  {
    assert DaysBeforeMonth(year, 2) == 31;
    assert DaysBeforeMonth(year, 3) == 31 + MonthLength(year, 2);
    assert DaysBeforeMonth(year, 5) == DaysBeforeMonth(year, 3) + 61;
    assert DaysBeforeMonth(year, 7) == DaysBeforeMonth(year, 5) + 61;
    assert DaysBeforeMonth(year, 9) == DaysBeforeMonth(year, 7) + 62;
    assert DaysBeforeMonth(year, 11) == DaysBeforeMonth(year, 9) + 61;
    assert DaysBeforeMonth(year, 12) == DaysBeforeMonth(year, 11) + 30;
  }

  // ---- Text ----

  function Pow10(width: nat): nat {
    if width == 0 then 1 else 10 * Pow10(width - 1)
  }

  function DigitChar(d: nat): char
    requires d < 10
  {
    '0' + d as char
  }

  /** `n` in decimal, padded with zeros to `width` characters. */
  function Digits(n: nat, width: nat): (s: string)
    ensures |s| == width
    ensures forall i :: 0 <= i < width ==> '0' <= s[i] <= '9'
  {
    if width == 0 then [] else Digits(n / 10, width - 1) + [DigitChar(n % 10)]
  }

  function DecimalWidth(n: nat): nat {
    if n < 10 then 1 else 1 + DecimalWidth(n / 10)
  }

  datatype Fields = Fields(year: nat, month: nat, day: nat, second: nat, milli: nat)

  /** The calendar fields of a moment; `second` counts from midnight. */
  function FieldsOf(ms: nat): Fields {
    var days := ms / 1000 / SECONDS_PER_DAY;
    var year := YearOf(1970, days);
    var month := MonthOf(year.unit, 1, year.offset);
    Fields(year.unit, month.unit, month.offset + 1, ms / 1000 % SECONDS_PER_DAY, ms % 1000)
  }

  function YearText(year: nat): string {
    if year <= 9999 then Digits(year, 4) else "+" + Digits(year, DecimalWidth(year))
  }

  function MinuteText(second: nat): string {
    ":" + (Digits(second / 60 % 60, 2) + (":" + Digits(second % 60, 2)))
  }

  function ClockText(second: nat): string {
    Digits(second / 3600, 2) + MinuteText(second)
  }

  /** No fraction at all on a whole second, three digits otherwise. */
  function FractionText(milli: nat): string {
    (if milli == 0 then "" else "." + Digits(milli, 3)) + "+00:00"
  }

  function FieldsText(f: Fields): string {
    YearText(f.year) + ("-" + (Digits(f.month, 2) + ("-" + (Digits(f.day, 2)
    + ("T" + (ClockText(f.second) + FractionText(f.milli)))))))
  }

  /** The text stored as `occurred_at`; moments the date library cannot hold render as the epoch. */
  function Render(ms: nat): string {
    FieldsText(FieldsOf(if ms <= LAST_RENDERABLE_MS then ms else 0))
  }

  // ---- Byte order of text ----

  predicate LexLess(s: string, t: string) {
    t != [] && (s == [] || s[0] < t[0] || (s[0] == t[0] && LexLess(s[1..], t[1..])))
  }

  lemma {:induction false} LexIrreflexive(s: string)
    ensures !LexLess(s, s)
  {
    if s != [] { LexIrreflexive(s[1..]); }
  }

  lemma {:induction false} LexAsymmetric(s: string, t: string)
    requires LexLess(s, t)
    ensures !LexLess(t, s)
  {
    if s != [] && s[0] == t[0] { LexAsymmetric(s[1..], t[1..]); }
  }

  lemma {:induction false} LexConcat(a: string, x: string, b: string, y: string)
    requires |a| == |b|
    ensures LexLess(a + x, b + y) <==> LexLess(a, b) || (a == b && LexLess(x, y))
  {
    if a == [] {
      assert a + x == x && b + y == y;
    } else {
      assert (a + x)[1..] == a[1..] + x && (b + y)[1..] == b[1..] + y;
      assert a == [a[0]] + a[1..] && b == [b[0]] + b[1..];
      LexConcat(a[1..], x, b[1..], y);
    }
  }

  lemma {:induction false} DigitsOrder(n1: nat, n2: nat, width: nat)
    requires n1 < n2 < Pow10(width)
    ensures LexLess(Digits(n1, width), Digits(n2, width))
  {
    var a, b := Digits(n1 / 10, width - 1), Digits(n2 / 10, width - 1);
    LexConcat(a, [DigitChar(n1 % 10)], b, [DigitChar(n2 % 10)]);
    if n1 / 10 < n2 / 10 { DigitsOrder(n1 / 10, n2 / 10, width - 1); }
  }

  /** Where two padded fields differ, the numbers decide; where they agree, what follows does. */
  lemma FieldOrder(n1: nat, x: string, n2: nat, y: string, width: nat)
    requires n1 < Pow10(width) && n2 < Pow10(width)
    requires n1 < n2 || (n1 == n2 && LexLess(x, y))
    ensures LexLess(Digits(n1, width) + x, Digits(n2, width) + y)
  {
    LexConcat(Digits(n1, width), x, Digits(n2, width), y);
    if n1 < n2 { DigitsOrder(n1, n2, width); }
  }

  lemma SeparatorOrder(sep: string, x: string, y: string)
    requires LexLess(x, y)
    ensures LexLess(sep + x, sep + y)
  {
    LexConcat(sep, x, sep, y);
  }

  predicate FieldsInRange(f: Fields) {
    f.year <= 9999 && f.month < 100 && f.day < 100 && f.second < SECONDS_PER_DAY && f.milli < 1000
  }

  predicate FieldsLess(f: Fields, g: Fields) {
    f.year < g.year || (f.year == g.year && (f.month < g.month || (f.month == g.month &&
      (f.day < g.day || (f.day == g.day && (f.second < g.second || (f.second == g.second && f.milli < g.milli)))))))
  }

  lemma FractionOrder(m1: nat, m2: nat)
    requires m1 < m2 < 1000
    ensures LexLess(FractionText(m1), FractionText(m2))
  {
    assert Pow10(3) == 1000;
    if m1 == 0 {
      assert FractionText(0) == "+00:00";
      assert FractionText(m2)[0] == '.';
    } else {
      FieldOrder(m1, "+00:00", m2, "+00:00", 3);
      SeparatorOrder(".", Digits(m1, 3) + "+00:00", Digits(m2, 3) + "+00:00");
      assert forall m :: m > 0 ==> FractionText(m) == "." + (Digits(m, 3) + "+00:00");
    }
  }

  lemma MinuteOrder(s1: nat, s2: nat)
    requires s1 / 3600 == s2 / 3600 && s1 < s2
    ensures LexLess(MinuteText(s1), MinuteText(s2))
  {
    assert Pow10(2) == 100;
    var m1, m2 := s1 / 60 % 60, s2 / 60 % 60;
    var t1, t2 := Digits(s1 % 60, 2), Digits(s2 % 60, 2);
    assert m1 <= m2 && (m1 == m2 ==> s1 % 60 < s2 % 60) by { MinuteSplit(s1, s2); }
    if m1 == m2 {
      DigitsOrder(s1 % 60, s2 % 60, 2);
      SeparatorOrder(":", t1, t2);
    }
    FieldOrder(m1, ":" + t1, m2, ":" + t2, 2);
    SeparatorOrder(":", Digits(m1, 2) + (":" + t1), Digits(m2, 2) + (":" + t2));
  }

  lemma MinuteSplit(s1: nat, s2: nat)
    requires s1 / 3600 == s2 / 3600 && s1 < s2
    ensures s1 / 60 % 60 <= s2 / 60 % 60
    ensures s1 / 60 % 60 == s2 / 60 % 60 ==> s1 % 60 < s2 % 60
  {
    assert s1 / 60 / 60 == s1 / 3600 && s2 / 60 / 60 == s2 / 3600;
  }

  lemma ClockOrder(s1: nat, x: string, s2: nat, y: string)
    requires s1 < SECONDS_PER_DAY && s2 < SECONDS_PER_DAY
    requires s1 < s2 || (s1 == s2 && LexLess(x, y))
    ensures LexLess(ClockText(s1) + x, ClockText(s2) + y)
  {
    assert Pow10(2) == 100;
    LexConcat(ClockText(s1), x, ClockText(s2), y);
    if s1 < s2 {
      if s1 / 3600 == s2 / 3600 { MinuteOrder(s1, s2); }
      FieldOrder(s1 / 3600, MinuteText(s1), s2 / 3600, MinuteText(s2), 2);
    }
  }

  function TimeTail(f: Fields): string { "T" + (ClockText(f.second) + FractionText(f.milli)) }
  function DayTail(f: Fields): string { "-" + (Digits(f.day, 2) + TimeTail(f)) }
  function MonthTail(f: Fields): string { "-" + (Digits(f.month, 2) + DayTail(f)) }

  lemma FieldsOrder(f: Fields, g: Fields)
    requires FieldsInRange(f) && FieldsInRange(g) && FieldsLess(f, g)
    ensures LexLess(FieldsText(f), FieldsText(g))
  {
    assert Pow10(2) == 100 && Pow10(4) == 10000 by { assert Pow10(1) == 10; assert Pow10(3) == 1000; }
    if f.year == g.year {
      if f.month == g.month {
        if f.day == g.day {
          if f.second == g.second { FractionOrder(f.milli, g.milli); }
          ClockOrder(f.second, FractionText(f.milli), g.second, FractionText(g.milli));
          SeparatorOrder("T", ClockText(f.second) + FractionText(f.milli), ClockText(g.second) + FractionText(g.milli));
        }
        FieldOrder(f.day, TimeTail(f), g.day, TimeTail(g), 2);
        SeparatorOrder("-", Digits(f.day, 2) + TimeTail(f), Digits(g.day, 2) + TimeTail(g));
      }
      FieldOrder(f.month, DayTail(f), g.month, DayTail(g), 2);
      SeparatorOrder("-", Digits(f.month, 2) + DayTail(f), Digits(g.month, 2) + DayTail(g));
    }
    FieldOrder(f.year, MonthTail(f), g.year, MonthTail(g), 4);
  }

  /** The fields of a moment are in range and are the moment again when counted back. */
  lemma FieldsOfSpan(ms: nat)
    ensures var f := FieldsOf(ms);
            && 1970 <= f.year && 1 <= f.month <= 12
            && 1 <= f.day <= MonthLength(f.year, f.month) <= 31
            && f.second < SECONDS_PER_DAY && f.milli < 1000
            && DaysBefore(1970) + ms / 1000 / SECONDS_PER_DAY
               == DaysBefore(f.year) + DaysBeforeMonth(f.year, f.month) + (f.day - 1)
            && DaysBeforeMonth(f.year, f.month) + (f.day - 1) < YearLength(f.year)
            && f.second == ms / 1000 % SECONDS_PER_DAY && f.milli == ms % 1000
  {
    var days := ms / 1000 / SECONDS_PER_DAY;
    YearOfSpan(1970, days);
    var y := YearOf(1970, days);
    MonthOfSpan(y.unit, 1, y.offset);
  }

  lemma YearTenThousand(ms: nat)
    ensures FieldsOf(ms).year <= 9999 <==> ms < Y10K_MS
  {
    FieldsOfSpan(ms);
    var f := FieldsOf(ms);
    hide FieldsOf;
    TenThousandStarts();
    DaysBeforeStep(f.year);
    if f.year <= 9999 { DaysBeforeMonotone(f.year + 1, 10000); } else { DaysBeforeMonotone(10000, f.year); }
    hide DaysBefore, DaysBeforeMonth, YearLength;
    DaysOfTenThousand(ms);
  }

  lemma TenThousandStarts()
    ensures DaysBefore(10000) - DaysBefore(1970) == 2932897
  {
  }

  lemma DaysOfTenThousand(ms: nat)
    ensures ms / 1000 / SECONDS_PER_DAY < 2932897 <==> ms < Y10K_MS
  {
  }

  lemma {:induction false} DaysBeforeMonthMonotone(year: nat, m1: nat, m2: nat)
    requires 1 <= m1 < m2
    ensures DaysBeforeMonth(year, m1) + MonthLength(year, m1) <= DaysBeforeMonth(year, m2)
    decreases m2
  {
    if m1 < m2 - 1 { DaysBeforeMonthMonotone(year, m1, m2 - 1); }
  }

  lemma FieldsIncrease(a: nat, b: nat)
    requires a < b
    ensures FieldsLess(FieldsOf(a), FieldsOf(b))
  {
    hide FieldsOf, YearOf, MonthOf;
    FieldsOfSpan(a);
    FieldsOfSpan(b);
    var f, g := FieldsOf(a), FieldsOf(b);
    DaysBeforeStep(g.year);
    if f.year == g.year && f.month > g.month {
      DaysBeforeMonthMonotone(f.year, g.month, f.month);
    }
  }

  lemma YearTextSign(year: nat)
    ensures YearText(year) != [] && (YearText(year)[0] == '+' <==> year > 9999)
    ensures year <= 9999 ==> '0' <= YearText(year)[0]
  {
  }

  /** Text order is number order exactly below the year 10000: a later moment sorts later
      if and only if its year still has four digits. */
  lemma OrderEmbedding(a: nat, b: nat)
    requires a < b && a < Y10K_MS
    ensures LexLess(Render(a), Render(b)) <==> b < Y10K_MS
  {
    FieldsOfSpan(a);
    YearTenThousand(a);
    if b < Y10K_MS {
      FieldsOfSpan(b);
      YearTenThousand(b);
      FieldsIncrease(a, b);
      FieldsOrder(FieldsOf(a), FieldsOf(b));
    } else if b <= LAST_RENDERABLE_MS {
      YearTenThousand(b);
      YearTextSign(FieldsOf(a).year);
      YearTextSign(FieldsOf(b).year);
      assert Render(a)[0] == YearText(FieldsOf(a).year)[0];
      assert Render(b)[0] == YearText(FieldsOf(b).year)[0];
    } else if a == 0 {
      LexIrreflexive(Render(a));
    } else {
      OrderEmbedding(0, a);
      LexAsymmetric(Render(0), Render(a));
    }
  }

  /** Below the year 10000 the order is strict both ways, so equal text means equal moments. */
  lemma RenderInjective(a: nat, b: nat)
    requires a < Y10K_MS && b < Y10K_MS
    ensures Render(a) == Render(b) ==> a == b
    ensures LexLess(Render(a), Render(b)) <==> a < b
  {
    if a < b {
      OrderEmbedding(a, b);
      LexIrreflexive(Render(a));
    } else if b < a {
      OrderEmbedding(b, a);
      LexAsymmetric(Render(b), Render(a));
      LexIrreflexive(Render(a));
    } else {
      LexIrreflexive(Render(a));
    }
  }

  // ---- Reading the text back, at whole-second precision ----

  predicate IsDigits(s: string) {
    forall i :: 0 <= i < |s| ==> '0' <= s[i] <= '9'
  }

  function Number(s: string): nat
    requires IsDigits(s)
  {
    if s == [] then 0 else 10 * Number(s[..|s| - 1]) + (s[|s| - 1] as nat - '0' as nat)
  }

  lemma {:induction false} NumberOfDigits(n: nat, width: nat)
    requires n < Pow10(width)
    ensures Number(Digits(n, width)) == n
  {
    if width > 0 {
      NumberOfDigits(n / 10, width - 1);
      var s := Digits(n, width);
      assert s[..|s| - 1] == Digits(n / 10, width - 1);
    }
  }

  predicate IsDateTime(s: string) {
    && |s| == 19
    && s[4] == '-' && s[7] == '-' && s[10] == 'T' && s[13] == ':' && s[16] == ':'
    && IsDigits(s[..4]) && IsDigits(s[5..7]) && IsDigits(s[8..10])
    && IsDigits(s[11..13]) && IsDigits(s[14..16]) && IsDigits(s[17..])
  }

  predicate IsZone(s: string) {
    s == "Z" || s == "+00:00" || (|s| == 10 && s[0] == '.' && IsDigits(s[1..4]) && s[4..] == "+00:00")
  }

  function DateTimeMs(s: string): nat
    requires IsDateTime(s)
  {
    var year, month, day := Number(s[..4]), Number(s[5..7]), Number(s[8..10]);
    var hour, minute, second := Number(s[11..13]), Number(s[14..16]), Number(s[17..]);
    if year < 1970 || !(1 <= month <= 12) || !(1 <= day <= MonthLength(year, month))
       || hour > 23 || minute > 59 || second > 59 then 0
    else
      DaysBeforeMonotone(1970, year);
      var days := DaysBefore(year) - DaysBefore(1970) + DaysBeforeMonth(year, month) + day - 1;
      (days * SECONDS_PER_DAY + hour * 3600 + minute * 60 + second) * 1000
  }

  /** What the external `date` command makes of one of these texts: its whole seconds since
      the epoch, times 1000; zero for anything else and for moments before the epoch. */
  function IsoToUnixMs(text: string): nat {
    if |text| >= 19 && IsDateTime(text[..19]) && IsZone(text[19..]) then DateTimeMs(text[..19]) else 0
  }

  /** Rounding down to a whole second. */
  function WholeSecond(ms: nat): (r: nat)
    ensures r <= ms < r + 1000 && r % 1000 == 0
  {
    ms / 1000 * 1000
  }

  function DateTimeText(f: Fields): string {
    YearText(f.year) + ("-" + (Digits(f.month, 2) + ("-" + (Digits(f.day, 2) + ("T" + ClockText(f.second))))))
  }

  /** The current time as the jobs stamp it: whole seconds with a `Z`. */
  function IsoNow(ms: nat): string {
    DateTimeText(FieldsOf(ms)) + "Z"
  }

  lemma DigitsAreDigits(n: nat, width: nat)
    ensures IsDigits(Digits(n, width))
  {
  }

  /** Where the parts of a clock text lie. */
  lemma ClockLayout(h: string, m: string, s: string)
    requires |h| == 2 && |m| == 2 && |s| == 2
    ensures var t := h + (":" + (m + (":" + s)));
      |t| == 8 && t[..2] == h && t[2] == ':' && t[3..5] == m && t[5] == ':' && t[6..] == s
  {
  }

  /** Where the parts of a date and clock text lie. */
  lemma DateLayout(y: string, m: string, d: string, t: string)
    requires |y| == 4 && |m| == 2 && |d| == 2 && |t| == 8
    ensures var s := y + ("-" + (m + ("-" + (d + ("T" + t)))));
      && |s| == 19 && s[..4] == y && s[4] == '-' && s[5..7] == m && s[7] == '-' && s[8..10] == d && s[10] == 'T'
      && s[11..] == t
  {
    var rest := d + ("T" + t);
    assert |rest| == 11 && rest[..2] == d && rest[2] == 'T' && rest[3..] == t;
    var tail := m + ("-" + rest);
    assert |tail| == 14 && tail[..2] == m && tail[2] == '-' && tail[3..] == rest;
    var s := y + ("-" + tail);
    assert s[5..] == tail && s[8..] == rest;
  }

  lemma DateTimeLayout(f: Fields)
    requires FieldsInRange(f)
    ensures var s := DateTimeText(f);
            && IsDateTime(s)
            && s[..4] == Digits(f.year, 4) && s[5..7] == Digits(f.month, 2) && s[8..10] == Digits(f.day, 2)
            && s[11..13] == Digits(f.second / 3600, 2) && s[14..16] == Digits(f.second / 60 % 60, 2)
            && s[17..] == Digits(f.second % 60, 2)
  {
    var y, mo, d := Digits(f.year, 4), Digits(f.month, 2), Digits(f.day, 2);
    var h, mi, se := Digits(f.second / 3600, 2), Digits(f.second / 60 % 60, 2), Digits(f.second % 60, 2);
    var s, t := DateTimeText(f), ClockText(f.second);
    DigitsAreDigits(f.year, 4);
    DigitsAreDigits(f.month, 2);
    DigitsAreDigits(f.day, 2);
    DigitsAreDigits(f.second / 3600, 2);
    DigitsAreDigits(f.second / 60 % 60, 2);
    DigitsAreDigits(f.second % 60, 2);
    hide Digits, IsDigits;
    ClockLayout(h, mi, se);
    DateLayout(y, mo, d, t);
    assert s[11..13] == s[11..][..2] && s[14..16] == s[11..][3..5] && s[17..] == s[11..][6..];
    assert s[13] == s[11..][2] && s[16] == s[11..][5];
  }

  function DayNumber(f: Fields): int {
    DaysBefore(f.year) - DaysBefore(1970) + DaysBeforeMonth(f.year, f.month) + f.day - 1
  }

  lemma FieldsReadBack(f: Fields)
    requires FieldsInRange(f) && 1970 <= f.year
    requires 1 <= f.month <= 12 && 1 <= f.day <= MonthLength(f.year, f.month)
    ensures IsDateTime(DateTimeText(f))
    ensures DateTimeMs(DateTimeText(f)) == (DayNumber(f) * SECONDS_PER_DAY + f.second) * 1000
  {
    hide Digits, Number, IsDateTime, IsDigits, DateTimeText, MonthLength, DaysBefore, DaysBeforeMonth;
    DateTimeLayout(f);
    assert Pow10(2) == 100 && Pow10(4) == 10000 by { assert Pow10(1) == 10; assert Pow10(3) == 1000; }
    NumberOfDigits(f.year, 4);
    NumberOfDigits(f.month, 2);
    NumberOfDigits(f.day, 2);
    NumberOfDigits(f.second / 3600, 2);
    NumberOfDigits(f.second / 60 % 60, 2);
    NumberOfDigits(f.second % 60, 2);
    ClockSum(f.second);
  }

  lemma DateTimeReadBack(ms: nat)
    requires ms < Y10K_MS
    ensures IsDateTime(DateTimeText(FieldsOf(ms)))
    ensures DateTimeMs(DateTimeText(FieldsOf(ms))) == WholeSecond(ms)
  {
    FieldsOfSpan(ms);
    YearTenThousand(ms);
    FieldsReadBack(FieldsOf(ms));
  }

  lemma ReadBack(ms: nat, zone: string)
    requires ms < Y10K_MS && IsZone(zone)
    ensures IsoToUnixMs(DateTimeText(FieldsOf(ms)) + zone) == WholeSecond(ms)
  {
    DateTimeReadBack(ms);
    var stamp := DateTimeText(FieldsOf(ms));
    assert (stamp + zone)[..19] == stamp && (stamp + zone)[19..] == zone;
  }

  lemma ClockSum(second: nat)
    ensures second / 3600 * 3600 + second / 60 % 60 * 60 + second % 60 == second
  {
    assert second / 60 / 60 == second / 3600;
  }

  lemma FractionIsZone(milli: nat)
    requires milli < 1000
    ensures IsZone(FractionText(milli)) && IsZone("Z")
  {
    if milli != 0 {
      var z := FractionText(milli);
      DigitsAreDigits(milli, 3);
      assert z[1..4] == Digits(milli, 3) && z[4..] == "+00:00";
    }
  }

  lemma RenderParts(ms: nat)
    requires ms < Y10K_MS
    ensures Render(ms) == DateTimeText(FieldsOf(ms)) + FractionText(FieldsOf(ms).milli)
  {
    hide FieldsOf, Digits, FractionText, YearText;
  }

  /** The checkpoint text reads back as the event's time rounded down to a whole second, and
      the job's own stamp likewise. */
  lemma CheckpointRoundTrip(ms: nat)
    requires ms < Y10K_MS
    ensures IsoToUnixMs(Render(ms)) == WholeSecond(ms)
    ensures IsoToUnixMs(IsoNow(ms)) == WholeSecond(ms)
  {
    var f := FieldsOf(ms);
    FieldsOfSpan(ms);
    RenderParts(ms);
    FractionIsZone(f.milli);
    hide FieldsOf, IsZone, FractionText, DateTimeText, Render;
    ReadBack(ms, FractionText(f.milli));
    ReadBack(ms, "Z");
  }

  lemma FractionForms(stamp: string, milli: nat)
    requires |stamp| == 19 && milli < 1000
    ensures var text := stamp + FractionText(milli);
      && |text| == (if milli == 0 then 25 else 29) && text[|text| - 6..] == "+00:00"
      && (milli != 0 ==> text[19] == '.' && text[20..23] == Digits(milli, 3))
  {
    var fraction := FractionText(milli);
    if milli == 0 {
      assert fraction == "+00:00";
    } else {
      assert fraction == "." + Digits(milli, 3) + "+00:00";
      assert (stamp + fraction)[20..23] == fraction[1..4] == Digits(milli, 3);
      assert (stamp + fraction)[23..] == fraction[4..] == "+00:00";
    }
  }

  /** The forms of the texts: a moment ends in its zone, and has a fraction of three digits unless its second
      is whole; the job's stamp never has one and ends in `Z`. */
  lemma TextForms(ms: nat)
    requires ms < Y10K_MS
    ensures |Render(ms)| == (if ms % 1000 == 0 then 25 else 29) && Render(ms)[|Render(ms)| - 6..] == "+00:00"
    ensures ms % 1000 != 0 ==> Render(ms)[19] == '.' && Render(ms)[20..23] == Digits(ms % 1000, 3)
    ensures |IsoNow(ms)| == 20 && IsoNow(ms)[19] == 'Z' && IsoNow(ms)[..19] == Render(ms)[..19]
  {
    FieldsOfSpan(ms);
    RenderParts(ms);
    DateTimeReadBack(ms);
    hide DateTimeText, FieldsOf, Render, FractionText, Digits;
    FractionForms(DateTimeText(FieldsOf(ms)), ms % 1000);
  }

  /** From the year 10000 on a moment renders with a signed year, and past the end of the year 262142, where the
      date library's calendar ends, as the epoch. */
  lemma BeyondFourDigits(ms: nat)
    requires ms >= 253_402_300_800_000
    ensures ms <= 8_210_266_876_799_999 ==> Render(ms) != [] && Render(ms)[0] == '+'
    ensures ms > 8_210_266_876_799_999 ==> Render(ms) == Render(0)
  {
    if ms <= LAST_RENDERABLE_MS {
      YearTenThousand(ms);
      YearTextSign(FieldsOf(ms).year);
      assert Render(ms)[0] == YearText(FieldsOf(ms).year)[0];
    }
  }
}
