/** The daemon's hand-rolled UTC timestamps: a closed-form day-number to Gregorian
    date conversion, proved against a calendar defined day by day. */
module Calendar {
  import opened Basics

  // ---- the reference calendar (RFC 3339, section 5.6 and Appendix C) ----

  datatype Date = Date(year: int, month: int, day: int)

  predicate Leap(y: int) { y % 4 == 0 && (y % 100 != 0 || y % 400 == 0) }

  function DaysInMonth(y: int, m: int): int {
    if m == 2 then if Leap(y) then 29 else 28
    else if m in {4, 6, 9, 11} then 30
    else 31
  }

  predicate Valid(d: Date) { 1 <= d.month <= 12 && 1 <= d.day <= DaysInMonth(d.year, d.month) }

  function NextDay(d: Date): Date {
    if d.day < DaysInMonth(d.year, d.month) then d.(day := d.day + 1)
    else if d.month < 12 then Date(d.year, d.month + 1, 1)
    else Date(d.year + 1, 1, 1)
  }

  predicate Before(d: Date, e: Date) {
    || d.year < e.year
    || (d.year == e.year && d.month < e.month)
    || (d.year == e.year && d.month == e.month && d.day < e.day)
  }

  /** Leap days in the years 1 to `y`, extended to all integers by floor division. */
  function LeapDays(y: int): int { y / 4 - y / 100 + y / 400 }

  /** Days of year `y` before month `m`. */
  function DaysBeforeMonth(y: int, m: nat): int {
    if m <= 1 then 0 else DaysBeforeMonth(y, m - 1) + DaysInMonth(y, m - 1)
  }

  const EPOCH_DAYS: int := 719_162

  /** Day number of a date, 1970-01-01 being day 0. */
  function DayNumber(d: Date): int
    requires d.month >= 0
  {
    365 * (d.year - 1) + LeapDays(d.year - 1) + DaysBeforeMonth(d.year, d.month) + d.day - 1 - EPOCH_DAYS
  }

  // ---- the program's conversion ----

  /** The 400-year era of a shifted day number, with the program's truncating division. */
  function Era(z: int): int { TruncDiv(if z >= 0 then z else z - 146_096, 146_097) }

  function YearOfEra(doe: int): int { (doe - doe / 1460 + doe / 36_524 - doe / 146_096) / 365 }

  /** The `doy`-th day, from zero, of a year that starts on 1 March. */
  function DateInMarchYear(year: int, doy: int): Date {
    var mp := (5 * doy + 2) / 153;
    var month := MonthOf(mp);
    Date(if month <= 2 then year + 1 else year, month, doy - MarchStart(mp) + 1)
  }

  function MonthOf(mp: int): int { if mp < 10 then mp + 3 else mp - 9 }

  /** Days from 1 March to the first of the `mp`-th month after March. */
  function MarchStart(mp: int): int { (153 * mp + 2) / 5 }

  function DayOfYear(doe: int, yoe: int): int { doe - (365 * yoe + yoe / 4 - yoe / 100) }

  function DateInEra(era: int, doe: int): Date {
    DateInMarchYear(YearOfEra(doe) + era * 400, DayOfYear(doe, YearOfEra(doe)))
  }

  function CivilFromDays(days: int): Date {
    var z := days + 719_468;
    DateInEra(Era(z), z - Era(z) * 146_097)
  }

  // ---- the conversion is right ----

  /** The truncating division of the adjusted value is floor division of the original. */
  lemma EraIsFloor(z: int)
    ensures Era(z) == z / 146_097
    ensures 0 <= z - Era(z) * 146_097 < 146_097
  {}

  lemma DivIs(n: int, d: int, q: int)
    requires d > 0 && d * q <= n < d * q + d
    ensures n / d == q
  {
    if n / d < q { MulUp(n / d + 1, q, d); assert false; }
    if n / d > q { MulUp(q + 1, n / d, d); assert false; }
  }

  lemma MulUp(a: int, b: int, m: int)
    requires a <= b && 0 <= m
    ensures m * a <= m * b
  {}

  /** A day of an era as century, four-year cycle, year of the cycle and day of the
      March-based year. */
  datatype Split = Split(c: int, q: int, a: int, r: int)

  predicate IsSplit(s: Split, doe: int) {
    && 0 <= s.c <= 3 && 0 <= s.q <= 24 && 0 <= s.a <= 3
    && 0 <= s.r <= 364 + (if s.a == 3 && (s.q < 24 || s.c == 3) then 1 else 0)
    && doe == 36_524 * s.c + 1461 * s.q + 365 * s.a + s.r
  }

  function SplitOf(doe: int): (s: Split)
    requires 0 <= doe < 146_097
    ensures IsSplit(s, doe)
  {
    var c := Min(doe / 36_524, 3);
    var r1 := doe - 36_524 * c;
    var q := r1 / 1461;
    var r2 := r1 - 1461 * q;
    var a := Min(r2 / 365, 3);
    Split(c, q, a, r2 - 365 * a)
  }

  /** The one-line year-of-era formula computes the year of the split. */
  lemma YearOfEraIsSplitYear(doe: int, s: Split)
    requires IsSplit(s, doe)
    ensures YearOfEra(doe) == 100 * s.c + 4 * s.q + s.a
  {
    var over := 24 * s.c + s.q + 365 * s.a + s.r;
    var carry := if over >= 1460 then 1 else 0;
    var last := if doe == 146_096 then 1 else 0;
    DivIs(doe, 1460, 25 * s.c + s.q + carry);
    DivIs(doe, 36_524, s.c + last);
    DivIs(doe, 146_096, last);
    DivIs(doe - doe / 1460 + doe / 36_524 - doe / 146_096, 365, 100 * s.c + 4 * s.q + s.a);
  }

  lemma LeapDaysOfSplit(era: int, s: Split, doe: int)
    requires IsSplit(s, doe)
    ensures LeapDays(400 * era + 100 * s.c + 4 * s.q + s.a) == 97 * era + 24 * s.c + s.q
  {
    var y := 400 * era + 100 * s.c + 4 * s.q + s.a;
    DivIs(y, 4, 100 * era + 25 * s.c + s.q);
    DivIs(y, 100, 4 * era + s.c);
    DivIs(y, 400, era);
  }

  /** Only the last year of a cycle is followed by a 29 February. */
  lemma LeapAfterSplit(era: int, s: Split, doe: int)
    requires IsSplit(s, doe)
    ensures Leap(400 * era + 100 * s.c + 4 * s.q + s.a + 1) <==> s.a == 3 && (s.q < 24 || s.c == 3)
  {
    var y := 400 * era + 100 * s.c + 4 * s.q + s.a + 1;
    DivIs(y, 4, 100 * era + 25 * s.c + s.q + (if s.a == 3 then 1 else 0));
    DivIs(y, 100, 4 * era + s.c + (if s.a == 3 && s.q == 24 then 1 else 0));
    DivIs(y, 400, era + (if s.a == 3 && s.q == 24 && s.c == 3 then 1 else 0));
    RemainderIs(y, 4);
    RemainderIs(y, 100);
    RemainderIs(y, 400);
  }

  lemma RemainderIs(n: int, d: int)
    requires d > 0
    ensures n % d == n - d * (n / d)
  {}

  lemma MonthOfMarchDay(r: int)
    requires 0 <= r <= 365
    ensures var mp := (5 * r + 2) / 153;
            && 0 <= mp <= 11
            && MarchStart(mp) <= r < MarchStart(mp + 1)
  {}

  lemma LeapDaysStep(y: int)
    ensures LeapDays(y) - LeapDays(y - 1) == if Leap(y) then 1 else 0
  {
    QuotientStep(y, 4);
    QuotientStep(y, 100);
    QuotientStep(y, 400);
  }

  lemma QuotientStep(y: int, d: int)
    requires d in {4, 100, 400}
    ensures y / d - (y - 1) / d == if y % d == 0 then 1 else 0
  {}

  lemma MonthTable(y: int)
    ensures var l := if Leap(y) then 1 else 0;
            && DaysBeforeMonth(y, 1) == 0 && DaysBeforeMonth(y, 2) == 31
            && DaysBeforeMonth(y, 3) == 59 + l && DaysBeforeMonth(y, 4) == 90 + l
            && DaysBeforeMonth(y, 5) == 120 + l && DaysBeforeMonth(y, 6) == 151 + l
            && DaysBeforeMonth(y, 7) == 181 + l && DaysBeforeMonth(y, 8) == 212 + l
            && DaysBeforeMonth(y, 9) == 243 + l && DaysBeforeMonth(y, 10) == 273 + l
            && DaysBeforeMonth(y, 11) == 304 + l && DaysBeforeMonth(y, 12) == 334 + l
            && DaysBeforeMonth(y, 13) == 365 + l
  {
    assert DaysBeforeMonth(y, 4) == DaysBeforeMonth(y, 3) + 31;
    assert DaysBeforeMonth(y, 7) == DaysBeforeMonth(y, 6) + 30;
    assert DaysBeforeMonth(y, 10) == DaysBeforeMonth(y, 9) + 30;
    assert DaysBeforeMonth(y, 13) == DaysBeforeMonth(y, 12) + 31;
  }

  /** The year, starting in March, that a split of an era denotes. */
  function MarchYear(era: int, s: Split): int { 400 * era + 100 * s.c + 4 * s.q + s.a }

  function YearOf(y0: int, mp: int): int { if mp < 10 then y0 else y0 + 1 }

  lemma DaysBeforeMarch(y0: int)
    ensures 365 * y0 + LeapDays(y0) - 306 == 365 * (y0 - 1) + LeapDays(y0 - 1) + DaysBeforeMonth(y0, 3)
  {
    LeapDaysStep(y0);
    MonthTable(y0);
  }

  /** The start and the length of the `mp`-th month after March. */
  lemma MarchMonth(y0: int, mp: int)
    requires 0 <= mp <= 11
    ensures var y, m := YearOf(y0, mp), MonthOf(mp);
            365 * (y - 1) + LeapDays(y - 1) + DaysBeforeMonth(y, m) == 365 * y0 + LeapDays(y0) - 306 + MarchStart(mp)
    ensures mp < 11 ==> DaysInMonth(YearOf(y0, mp), MonthOf(mp)) == MarchStart(mp + 1) - MarchStart(mp)
    ensures mp == 11 ==> MonthOf(mp) == 2 && MarchStart(mp) == 337
  {
    if mp < 10 {
      DaysBeforeMarch(y0);
      MonthTable(y0);
    } else {
      MonthTable(y0 + 1);
    }
  }

  lemma MarchDateAt(y0: int, r: int, mp: int)
    requires 0 <= mp <= 11 && MarchStart(mp) <= r < MarchStart(mp + 1)
    requires r <= 364 + (if Leap(y0 + 1) then 1 else 0)
    ensures var d := Date(YearOf(y0, mp), MonthOf(mp), r - MarchStart(mp) + 1);
            Valid(d) && DayNumber(d) == 365 * y0 + LeapDays(y0) + r - 306 - EPOCH_DAYS
  {
    MarchMonth(y0, mp);
  }

  lemma MarchDateCorrect(y0: int, r: int)
    requires 0 <= r <= 364 + (if Leap(y0 + 1) then 1 else 0)
    ensures Valid(DateInMarchYear(y0, r))
    ensures DayNumber(DateInMarchYear(y0, r)) == 365 * y0 + LeapDays(y0) + r - 306 - EPOCH_DAYS
  {
    MonthOfMarchDay(r);
    MarchDateAt(y0, r, (5 * r + 2) / 153);
  }

  lemma DayOfYearIsSplitDay(doe: int, s: Split)
    requires IsSplit(s, doe)
    ensures DayOfYear(doe, 100 * s.c + 4 * s.q + s.a) == s.r
  {
    var yoe := 100 * s.c + 4 * s.q + s.a;
    DivIs(yoe, 4, 25 * s.c + s.q);
    DivIs(yoe, 100, s.c);
  }

  /** The program's arithmetic walks exactly through the split. */
  lemma EraIsSplit(era: int, doe: int, s: Split)
    requires IsSplit(s, doe)
    ensures DateInEra(era, doe) == DateInMarchYear(MarchYear(era, s), s.r)
  {
    YearOfEraIsSplitYear(doe, s);
    DayOfYearIsSplitDay(doe, s);
  }

  lemma SplitIsDayOfYear(era: int, doe: int, s: Split)
    requires IsSplit(s, doe)
    ensures 0 <= s.r <= 364 + (if Leap(MarchYear(era, s) + 1) then 1 else 0)
  {
    LeapAfterSplit(era, s, doe);
  }

  lemma SplitTotal(era: int, doe: int, s: Split)
    requires IsSplit(s, doe)
    ensures 365 * MarchYear(era, s) + LeapDays(MarchYear(era, s)) + s.r == 146_097 * era + doe
  {
    LeapDaysOfSplit(era, s, doe);
  }

  lemma SplitCorrect(era: int, doe: int, s: Split)
    requires IsSplit(s, doe)
    ensures Valid(DateInMarchYear(MarchYear(era, s), s.r))
    ensures DayNumber(DateInMarchYear(MarchYear(era, s), s.r)) == 146_097 * era + doe - 719_468
  {
    SplitIsDayOfYear(era, doe, s);
    SplitTotal(era, doe, s);
    MarchDateCorrect(MarchYear(era, s), s.r);
  }

  lemma DateInEraCorrect(era: int, doe: int)
    requires 0 <= doe < 146_097
    ensures Valid(DateInEra(era, doe))
    ensures DayNumber(DateInEra(era, doe)) == 146_097 * era + doe - 719_468
  {
    var s := SplitOf(doe);
    EraIsSplit(era, doe, s);
    SplitCorrect(era, doe, s);
  }

  /** Every day number, negative ones included, becomes a valid Gregorian date, and the
      reference day count takes that date back to the same number. */
  lemma CivilFromDaysCorrect(days: int)
    ensures Valid(CivilFromDays(days))
    ensures DayNumber(CivilFromDays(days)) == days
  {
    var z := days + 719_468;
    EraIsFloor(z);
    DateInEraCorrect(Era(z), z - Era(z) * 146_097);
  }

  // ---- uniqueness, succession and order ----

  lemma MonthFits(d: Date)
    requires Valid(d)
    ensures 1 <= DaysBeforeMonth(d.year, d.month) + d.day <= DaysBeforeMonth(d.year, d.month + 1)
    ensures DaysBeforeMonth(d.year, d.month + 1) <= DaysBeforeMonth(d.year, 13)
  {
    MonthTable(d.year);
  }

  lemma MonthsAscend(y: int, m: nat, n: nat)
    requires m <= n
    ensures DaysBeforeMonth(y, m) <= DaysBeforeMonth(y, n)
  {}

  lemma {:induction false} YearsAscend(y: int, z: int)
    requires y <= z
    ensures 365 * (z - y) <= 365 * (z - 1) + LeapDays(z - 1) - (365 * (y - 1) + LeapDays(y - 1))
    decreases z - y
  {
    if y < z {
      YearsAscend(y, z - 1);
      LeapDaysStep(z - 1);
    }
  }

  /** Calendar order and day-number order agree. */
  lemma DayNumberMonotone(d: Date, e: Date)
    requires Valid(d) && Valid(e)
    ensures Before(d, e) <==> DayNumber(d) < DayNumber(e)
    ensures d == e <==> DayNumber(d) == DayNumber(e)
  {
    if Before(d, e) {
      BeforeAscends(d, e);
    } else if Before(e, d) {
      BeforeAscends(e, d);
    }
  }

  lemma BeforeAscends(d: Date, e: Date)
    requires Valid(d) && Valid(e) && Before(d, e)
    ensures DayNumber(d) < DayNumber(e)
  {
    MonthFits(d);
    MonthFits(e);
    if d.year < e.year {
      EarlierYear(d, e);
    } else if d.month < e.month {
      MonthsAscend(d.year, d.month + 1, e.month);
    }
  }

  lemma EarlierYear(d: Date, e: Date)
    requires Valid(d) && Valid(e) && d.year < e.year
    requires DaysBeforeMonth(d.year, d.month) + d.day <= DaysBeforeMonth(d.year, 13)
    requires DaysBeforeMonth(e.year, e.month) + e.day >= 1
    ensures DayNumber(d) < DayNumber(e)
  {
    YearsAscend(d.year + 1, e.year);
    LeapDaysStep(d.year);
    YearLength(d.year);
  }

  lemma YearLength(y: int)
    ensures DaysBeforeMonth(y, 13) == 365 + if Leap(y) then 1 else 0
  {
    MonthTable(y);
  }

  lemma NextDayCounts(d: Date)
    requires Valid(d)
    ensures Valid(NextDay(d)) && DayNumber(NextDay(d)) == DayNumber(d) + 1
  {
    if d.month == 12 {
      LeapDaysStep(d.year);
      YearLength(d.year);
    }
  }

  /** The conversion inverts the reference day count on every valid date. */
  lemma DaysRoundTrip(d: Date)
    requires Valid(d)
    ensures CivilFromDays(DayNumber(d)) == d
  {
    CivilFromDaysCorrect(DayNumber(d));
    DayNumberMonotone(CivilFromDays(DayNumber(d)), d);
  }

  /** Day 0 is the Unix epoch. */
  lemma EpochIsDayZero()
    ensures CivilFromDays(0) == Date(1970, 1, 1)
  {
    assert DayNumber(Date(1970, 1, 1)) == 0;
    DaysRoundTrip(Date(1970, 1, 1));
  }

  lemma SuccessorIsUnique(d: Date, e: Date)
    requires Valid(d) && Valid(e) && DayNumber(e) == DayNumber(d) + 1
    ensures e == NextDay(d)
  {
    NextDayCounts(d);
    DayNumberMonotone(e, NextDay(d));
  }

  /** Consecutive days become consecutive dates; with `EpochIsDayZero` this fixes every date. */
  lemma ConsecutiveDays(days: int)
    ensures CivilFromDays(days + 1) == NextDay(CivilFromDays(days))
  {
    CivilFromDaysCorrect(days);
    CivilFromDaysCorrect(days + 1);
    SuccessorIsUnique(CivilFromDays(days), CivilFromDays(days + 1));
  }

  lemma DaysKeepOrder(m: int, n: int)
    ensures m < n <==> Before(CivilFromDays(m), CivilFromDays(n))
  {
    CivilFromDaysCorrect(m);
    CivilFromDaysCorrect(n);
    DayNumberMonotone(CivilFromDays(m), CivilFromDays(n));
  }

  // ---- the whole timestamp ----

  datatype Stamp = Stamp(date: Date, hour: int, minute: int, second: int)

  /** The fields of `YYYY-MM-DDTHH:MM:SSZ` for a count of seconds since the epoch. */
  function IsoStamp(secs: nat): Stamp {
    var rem := secs % 86_400;
    Stamp(CivilFromDays(secs / 86_400), rem / 3600, (rem % 3600) / 60, rem % 60)
  }

  predicate ValidStamp(s: Stamp) {
    Valid(s.date) && 0 <= s.hour <= 23 && 0 <= s.minute <= 59 && 0 <= s.second <= 59
  }

  function SecondsOf(s: Stamp): int
    requires s.date.month >= 0
  {
    86_400 * DayNumber(s.date) + 3600 * s.hour + 60 * s.minute + s.second
  }

  /** Field by field, most significant first. */
  predicate StampBefore(s: Stamp, t: Stamp) {
    || Before(s.date, t.date)
    || (s.date == t.date && s.hour < t.hour)
    || (s.date == t.date && s.hour == t.hour && s.minute < t.minute)
    || (s.date == t.date && s.hour == t.hour && s.minute == t.minute && s.second < t.second)
  }

  lemma ClockSplit(rem: int)
    requires 0 <= rem < 86_400
    ensures 0 <= rem / 3600 <= 23 && 0 <= (rem % 3600) / 60 <= 59 && 0 <= rem % 60 <= 59
    ensures 3600 * (rem / 3600) + 60 * ((rem % 3600) / 60) + rem % 60 == rem
  {}

  /** A published timestamp is a real date and time of day, from 1970 on, and names its second exactly. */
  lemma IsoStampInvertible(secs: nat)
    ensures ValidStamp(IsoStamp(secs)) && IsoStamp(secs).date.year >= 1970
    ensures SecondsOf(IsoStamp(secs)) == secs
  {
    CivilFromDaysCorrect(secs / 86_400);
    ClockSplit(secs % 86_400);
    EpochIsDayZero();
    DaysKeepOrder(secs / 86_400, 0);
  }

  /** A later second gets a later timestamp, and an earlier one never does. */
  lemma IsoStampKeepsOrder(a: nat, b: nat)
    ensures a < b <==> StampBefore(IsoStamp(a), IsoStamp(b))
  {
    var s, t := IsoStamp(a), IsoStamp(b);
    IsoStampInvertible(a);
    IsoStampInvertible(b);
    DayNumberMonotone(s.date, t.date);
  }

  // ---- the text ----

  function DigitChar(d: nat): char
    requires d < 10
  {
    '0' + d as char
  }

  function Decimal(n: nat): string {
    if n < 10 then [DigitChar(n)] else Decimal(n / 10) + [DigitChar(n % 10)]
  }

  function Zeros(n: nat): string { seq(n, _ => '0') }

  /** Zero-padded on the left to at least `width` characters. */
  function Padded(n: nat, width: nat): string {
    var d := Decimal(n);
    if |d| < width then Zeros(width - |d|) + d else d
  }

  /** The timestamp as published. */
  function IsoNow(secs: nat): string {
    var s := IsoStamp(secs);
    IsoStampInvertible(secs);
    Padded(s.date.year, 4) + "-" + Padded(s.date.month, 2) + "-" + Padded(s.date.day, 2)
    + "T" + Padded(s.hour, 2) + ":" + Padded(s.minute, 2) + ":" + Padded(s.second, 2) + "Z"
  }

  function Value(s: string): int {
    if s == [] then 0 else 10 * Value(s[..|s| - 1]) + (s[|s| - 1] as int - '0' as int)
  }

  /** Reading a timestamp: every field but the year has its fixed place from the end. */
  function ParseIso(text: string): Stamp
    requires |text| >= 20
  {
    var n := |text|;
    Stamp(Date(Value(text[..n - 16]), Value(text[n - 15..n - 13]), Value(text[n - 12..n - 10])),
          Value(text[n - 9..n - 7]), Value(text[n - 6..n - 4]), Value(text[n - 3..n - 1]))
  }

  predicate AllDigits(s: string) { forall i :: 0 <= i < |s| ==> '0' <= s[i] <= '9' }

  lemma {:induction false} DecimalReads(n: nat)
    ensures Value(Decimal(n)) == n && AllDigits(Decimal(n))
    ensures |Decimal(n)| >= 1
    ensures n < 100 ==> |Decimal(n)| <= 2
    ensures |Decimal(n)| <= 4 <==> n < 10_000
  {
    if n >= 10 {
      DecimalReads(n / 10);
      assert Decimal(n)[..|Decimal(n)| - 1] == Decimal(n / 10);
      DecimalLength(n);
    }
  }

  lemma DecimalLength(n: nat)
    requires n >= 10
    ensures |Decimal(n)| == |Decimal(n / 10)| + 1
    ensures |Decimal(n)| <= 4 <==> n < 10_000
  {
    assert |Decimal(n)| <= 4 <==> n < 10 || |Decimal(n / 10)| <= 3;
    var m := n / 10;
    assert |Decimal(m)| <= 3 <==> m < 10 || |Decimal(m / 10)| <= 2;
    var l := m / 10;
    assert |Decimal(l)| <= 2 <==> l < 10 || |Decimal(l / 10)| <= 1;
    assert |Decimal(l / 10)| <= 1 <==> l / 10 < 10;
  }

  lemma {:induction false} LeadingZeros(k: nat, s: string)
    ensures Value(Zeros(k) + s) == Value(s)
  {
    if s != [] {
      assert (Zeros(k) + s)[..k + |s| - 1] == Zeros(k) + s[..|s| - 1];
      LeadingZeros(k, s[..|s| - 1]);
    } else if k > 0 {
      assert (Zeros(k) + s)[..k - 1] == Zeros(k - 1) + s;
      LeadingZeros(k - 1, s);
    } else {
      assert Zeros(k) + s == s;
    }
  }

  lemma PaddedReads(n: nat, width: nat)
    ensures Value(Padded(n, width)) == n && |Padded(n, width)| >= width && AllDigits(Padded(n, width))
    ensures width == 2 && n < 100 ==> |Padded(n, width)| == 2
    ensures width == 4 ==> (|Padded(n, width)| == 4 <==> n < 10_000)
  {
    DecimalReads(n);
    if |Decimal(n)| < width { LeadingZeros(width - |Decimal(n)|, Decimal(n)); }
  }

  lemma TextSplits(y: string, mo: string, d: string, h: string, mi: string, s: string)
    requires |y| >= 4 && |mo| == |d| == |h| == |mi| == |s| == 2
    ensures var text := y + "-" + mo + "-" + d + "T" + h + ":" + mi + ":" + s + "Z";
            var n := |text|;
            && n == |y| + 16
            && text[..n - 16] == y && text[n - 15..n - 13] == mo && text[n - 12..n - 10] == d
            && text[n - 9..n - 7] == h && text[n - 6..n - 4] == mi && text[n - 3..n - 1] == s
            && text[n - 16] == text[n - 13] == '-' && text[n - 10] == 'T'
            && text[n - 7] == text[n - 4] == ':' && text[n - 1] == 'Z'
  {}

  lemma IsoTextReads(secs: nat)
    ensures |IsoNow(secs)| >= 20
    ensures var s := ParseIso(IsoNow(secs));
            && ValidStamp(s) && s.date.year >= 1970
            && SecondsOf(s) == secs
            && (|IsoNow(secs)| == 20 <==> s.date.year <= 9999)
  {
    hide Value;
    hide Padded;
    hide SecondsOf;
    hide IsoStamp;
    hide AllDigits;
    IsoStampInvertible(secs);
    var s := IsoStamp(secs);
    PaddedReads(s.date.year, 4);
    PaddedReads(s.date.month, 2);
    PaddedReads(s.date.day, 2);
    PaddedReads(s.hour, 2);
    PaddedReads(s.minute, 2);
    PaddedReads(s.second, 2);
    TextSplits(Padded(s.date.year, 4), Padded(s.date.month, 2), Padded(s.date.day, 2),
               Padded(s.hour, 2), Padded(s.minute, 2), Padded(s.second, 2));
    assert ParseIso(IsoNow(secs)) == s;
  }

  /** Where the separators stand, counted from the end. */
  predicate IsSeparator(n: int, k: int) { k in {n - 16, n - 13, n - 10, n - 7, n - 4, n - 1} }

  lemma TextIsDigits(y: string, mo: string, d: string, h: string, mi: string, s: string)
    requires |y| >= 4 && |mo| == |d| == |h| == |mi| == |s| == 2
    requires AllDigits(y) && AllDigits(mo) && AllDigits(d) && AllDigits(h) && AllDigits(mi) && AllDigits(s)
    ensures var text := y + "-" + mo + "-" + d + "T" + h + ":" + mi + ":" + s + "Z";
            forall k :: 0 <= k < |text| && !IsSeparator(|text|, k) ==> '0' <= text[k] <= '9'
  {}

  lemma IsoTextSeparates(secs: nat)
    ensures var text, n := IsoNow(secs), |IsoNow(secs)|;
            && n >= 20
            && (forall k :: 0 <= k < n && !IsSeparator(n, k) ==> '0' <= text[k] <= '9')
            && text[n - 16] == text[n - 13] == '-' && text[n - 10] == 'T'
            && text[n - 7] == text[n - 4] == ':' && text[n - 1] == 'Z'
  {
    hide Value;
    hide Padded;
    hide SecondsOf;
    hide IsoStamp;
    hide AllDigits;
    IsoStampInvertible(secs);
    var s := IsoStamp(secs);
    PaddedReads(s.date.year, 4);
    PaddedReads(s.date.month, 2);
    PaddedReads(s.date.day, 2);
    PaddedReads(s.hour, 2);
    PaddedReads(s.minute, 2);
    PaddedReads(s.second, 2);
    TextSplits(Padded(s.date.year, 4), Padded(s.date.month, 2), Padded(s.date.day, 2),
               Padded(s.hour, 2), Padded(s.minute, 2), Padded(s.second, 2));
    TextIsDigits(Padded(s.date.year, 4), Padded(s.date.month, 2), Padded(s.date.day, 2),
                 Padded(s.hour, 2), Padded(s.minute, 2), Padded(s.second, 2));
  }

  /** The published text is digits with the separators of RFC 3339 in their places, and reads back as a real date
      and time of day, from 1970 on, that names its second exactly; it has twenty characters exactly
      until the year 9999 ends. */
  lemma IsoTextRoundTrip(secs: nat)
    ensures |IsoNow(secs)| >= 20
    ensures var text, n := IsoNow(secs), |IsoNow(secs)|;
            && (forall k :: 0 <= k < n && !IsSeparator(n, k) ==> '0' <= text[k] <= '9')
            && text[n - 16] == text[n - 13] == '-' && text[n - 10] == 'T'
            && text[n - 7] == text[n - 4] == ':' && text[n - 1] == 'Z'
    ensures var s := ParseIso(IsoNow(secs));
            && ValidStamp(s) && s.date.year >= 1970
            && SecondsOf(s) == secs
            && (|IsoNow(secs)| == 20 <==> s.date.year <= 9999)
  {
    hide IsoNow;
    hide ParseIso;
    IsoTextSeparates(secs);
    IsoTextReads(secs);
  }
}
