/** The day-count to date conversion and the block timestamps built on it. */
module Calendar {

  datatype Date = Date(year: int, month: nat, day: nat)

  // ------------------------------------------------ the Gregorian calendar

  predicate Leap(year: int) {
    year % 4 == 0 && (year % 100 != 0 || year % 400 == 0)
  }

  function DaysInMonth(year: int, month: nat): nat {
    if month == 2 then if Leap(year) then 29 else 28
    else if month in {4, 6, 9, 11} then 30
    else 31
  }

  predicate Valid(d: Date) {
    1 <= d.month <= 12 && 1 <= d.day <= DaysInMonth(d.year, d.month)
  }

  function NextDay(d: Date): Date {
    if d.day < DaysInMonth(d.year, d.month) then Date(d.year, d.month, d.day + 1)
    else if d.month < 12 then Date(d.year, d.month + 1, 1)
    else Date(d.year + 1, 1, 1)
  }

  // ----------------------------------------------------------- the conversion

  /** Days since 1970-01-01 to a date. */
  function CivilFromDays(days: int): Date {
    var z := days + 719468;
    var era := z / 146097;
    var doe := z - era * 146097;
    var yoe := YearOfEra(doe);
    var doy := doe - (365 * yoe + yoe / 4 - yoe / 100);
    var mp := (5 * doy + 2) / 153;
    var day := doy - (153 * mp + 2) / 5 + 1;
    var month := if mp < 10 then mp + 3 else mp - 9;
    Date(yoe + era * 400 + (if month <= 2 then 1 else 0), Nat(month), Nat(day))
  }

  /** The conversion to an unsigned value; it is applied to positive ones only. */
  function Nat(i: int): nat { if i < 0 then 0 else i }

  function YearOfEra(doe: int): int {
    (doe - doe / 1460 + doe / 36524 - doe / 146096) / 365
  }

  // ------------------------------------ years that begin on the first of March

  /** Days of an era before its year `yoe`. */
  function YearStart(yoe: nat): nat {
    365 * yoe + yoe / 4 - yoe / 100
  }

  /** The length of the year from March of `year`: it ends with the next February. */
  function YearLength(year: int): nat { if Leap(year + 1) then 366 else 365 }

  /** The date on day `doy` of the year from March of `year`. */
  function DateOf(year: int, doy: nat): Date {
    var mp := (5 * doy + 2) / 153;
    var month := if mp < 10 then mp + 3 else mp - 9;
    Date(if month <= 2 then year + 1 else year, Nat(month), Nat(doy - (153 * mp + 2) / 5 + 1))
  }

  /** A year of an era as its century, its four-year cycle and its place there. */
  lemma YearParts(c: nat, q: nat, r: nat)
    requires c < 4 && q < 25 && r < 4
    ensures var y := 100 * c + 4 * q + r;
            && YearStart(y) == 36524 * c + 1461 * q + 365 * r
            && (Leap(y + 1) <==> r == 3 && (q < 24 || c == 3))
  {
  }

  lemma YearOfEraParts(c: nat, q: nat, r: nat, doy: nat)
    requires c < 4 && q < 25 && r < 4
    requires doy < if r == 3 && (q < 24 || c == 3) then 366 else 365
    ensures YearOfEra(36524 * c + 1461 * q + 365 * r + doy) == 100 * c + 4 * q + r
  {
    var doe := 36524 * c + 1461 * q + 365 * r + doy;
    var x := if 24 * c + q + 365 * r + doy >= 1460 then 1 else 0;
    assert doe == 1460 * (25 * c + q) + (24 * c + q + 365 * r + doy);
    assert doe / 1460 == 25 * c + q + x;
    var last := if 1461 * q + 365 * r + doy == 36524 then 1 else 0;
    assert doe / 36524 == c + last && doe / 146096 == last;
  }

  /** Every year of an era has such parts. */
  lemma PartsOf(yoe: nat) returns (c: nat, q: nat, r: nat)
    requires yoe < 400
    ensures c < 4 && q < 25 && r < 4 && yoe == 100 * c + 4 * q + r
  {
    c, q, r := yoe / 100, yoe % 100 / 4, yoe % 4;
    assert yoe % 100 == 4 * (yoe % 100 / 4) + yoe % 100 % 4;
    assert yoe == 100 * c + yoe % 100;
  }

  lemma LeapInEra(era: int, k: nat)
    ensures Leap(400 * era + k) <==> Leap(k)
  {
    Mod400(era, k);
    Mod100(4 * era, k);
    Mod4(100 * era, k);
  }

  lemma Mod400(x: int, k: nat) ensures (400 * x + k) % 400 == k % 400 {}

  lemma Mod100(x: int, k: nat) ensures (100 * x + k) % 100 == k % 100 {}

  lemma Mod4(x: int, k: nat) ensures (4 * x + k) % 4 == k % 4 {}

  function DayNumber(era: int, yoe: nat, doy: nat): int {
    146097 * era + YearStart(yoe) + doy - 719468
  }

  lemma InEra(yoe: nat, doy: nat)
    requires yoe < 400 && doy < YearLength(yoe)
    ensures 0 <= YearStart(yoe) + doy < 146097 && YearOfEra(YearStart(yoe) + doy) == yoe
    ensures yoe < 399 ==> YearStart(yoe + 1) == YearStart(yoe) + YearLength(yoe)
    ensures yoe == 399 ==> YearStart(yoe) + YearLength(yoe) == 146097
  {
    hide Leap, YearOfEra;
    var c, q, r := PartsOf(yoe);
    YearParts(c, q, r);
    YearOfEraParts(c, q, r, doy);
    if yoe < 399 {
      var d, p, t := PartsOf(yoe + 1);
      YearParts(d, p, t);
    }
  }

  /** The conversion at a day given by era, year and day of the year. */
  lemma CivilAt(era: int, yoe: nat, doy: nat)
    requires yoe < 400 && doy < YearLength(yoe)
    ensures CivilFromDays(DayNumber(era, yoe, doy)) == DateOf(400 * era + yoe, doy)
  {
    hide Leap, YearLength, YearOfEra, CivilFromDays, DateOf;
    InEra(yoe, doy);
    var doe := YearStart(yoe) + doy;
    EraOf(era, doe);
    CivilIs(DayNumber(era, yoe, doy), era, doe, yoe, doy);
  }

  lemma CivilIs(days: int, era: int, doe: nat, yoe: nat, doy: nat)
    requires days + 719468 == 146097 * era + doe && (146097 * era + doe) / 146097 == era
    requires YearOfEra(doe) == yoe && doe == YearStart(yoe) + doy
    ensures CivilFromDays(days) == DateOf(400 * era + yoe, doy)
  {
    hide YearOfEra;
    assert (days + 719468) / 146097 == era;
    assert doe - (365 * yoe + yoe / 4 - yoe / 100) == doy;
  }

  lemma EraOf(era: int, doe: nat)
    requires doe < 146097
    ensures (146097 * era + doe) / 146097 == era
  {
  }

  /** Every day number is given so. */
  lemma SplitDay(days: int) returns (era: int, yoe: nat, doy: nat)
    ensures yoe < 400 && doy < YearLength(yoe) && days == DayNumber(era, yoe, doy)
  {
    hide Leap;
    var z := days + 719468;
    era := z / 146097;
    var doe := z % 146097;
    yoe := FindYear(doe, 0);
    doy := doe - YearStart(yoe);
  }

  lemma {:induction false} FindYear(doe: nat, from: nat) returns (yoe: nat)
    requires from < 400 && YearStart(from) <= doe < 146097
    ensures yoe < 400 && YearStart(yoe) <= doe < YearStart(yoe) + YearLength(yoe)
    decreases 400 - from
  {
    hide Leap;
    InEra(from, 0);
    if doe < YearStart(from) + YearLength(from) {
      yoe := from;
    } else {
      yoe := FindYear(doe, from + 1);
    }
  }

  /** A month of the year from March: its first day and its length. */
  lemma MonthSpan(year: int, mp: nat)
    requires mp < 12
    ensures var first := (153 * mp + 2) / 5;
            var month := if mp < 10 then mp + 3 else mp - 9;
            var length := DaysInMonth(if mp < 10 then year else year + 1, month);
            && first + length == (if mp < 11 then (153 * (mp + 1) + 2) / 5 else YearLength(year))
            && forall doy: nat | first <= doy < first + length :: (5 * doy + 2) / 153 == mp
  {
  }

  lemma DateOfFacts(year: int, doy: nat) returns (mp: nat)
    requires doy < YearLength(year)
    ensures mp < 12 && mp == (5 * doy + 2) / 153
    ensures (153 * mp + 2) / 5 <= doy
    ensures doy < if mp < 11 then (153 * (mp + 1) + 2) / 5 else YearLength(year)
    ensures Valid(DateOf(year, doy))
  {
    hide Leap;
    mp := (5 * doy + 2) / 153;
    MonthSpan(year, mp);
  }

  lemma NextInYear(year: int, doy: nat)
    requires doy < YearLength(year)
    ensures NextDay(DateOf(year, doy)) ==
              if doy + 1 < YearLength(year) then DateOf(year, doy + 1) else DateOf(year + 1, 0)
  {
    hide Leap, DaysInMonth;
    var mp := DateOfFacts(year, doy);
    MonthSpan(year, mp);
    if doy + 1 == (153 * (mp + 1) + 2) / 5 && mp < 11 {
      MonthSpan(year, mp + 1);
      assert (5 * (doy + 1) + 2) / 153 == mp + 1;
    } else if doy + 1 < YearLength(year) {
      assert (5 * (doy + 1) + 2) / 153 == mp;
    }
  }

  /** The day after is the next day of the calendar, for every day number. */
  lemma Successor(days: int)
    ensures CivilFromDays(days + 1) == NextDay(CivilFromDays(days))
  {
    hide CivilFromDays, NextDay, DateOf, Leap;
    var era, yoe, doy := SplitDay(days);
    CivilAt(era, yoe, doy);
    LeapInEra(era, yoe + 1);
    NextInYear(400 * era + yoe, doy);
    InEra(yoe, doy);
    if doy + 1 < YearLength(yoe) {
      CivilAt(era, yoe, doy + 1);
    } else if yoe < 399 {
      CivilAt(era, yoe + 1, 0);
    } else {
      CivilAt(era + 1, 0, 0);
    }
  }

  lemma Epoch()
    ensures CivilFromDays(0) == Date(1970, 1, 1)
  {
    hide CivilFromDays;
    EveryDateHit(Date(1970, 1, 1));
  }

  // ------------------------------------------------------------ the bijection

  /** The day number of a date. */
  function DaysFromCivil(d: Date): int {
    var year := if d.month <= 2 then d.year - 1 else d.year;
    var mp := if d.month > 2 then d.month - 3 else d.month + 9;
    DayNumber(year / 400, year % 400, Nat((153 * mp + 2) / 5 + d.day - 1))
  }

  /** Every valid date is the date of its own day number. */
  lemma EveryDateHit(d: Date)
    requires Valid(d)
    ensures CivilFromDays(DaysFromCivil(d)) == d
  {
    hide Leap, CivilFromDays;
    var year := if d.month <= 2 then d.year - 1 else d.year;
    var mp := if d.month > 2 then d.month - 3 else d.month + 9;
    var doy := (153 * mp + 2) / 5 + d.day - 1;
    MonthSpan(year, mp);
    DoyInYear(year, mp, d.day);
    assert year == 400 * (year / 400) + year % 400;
    LeapInEra(year / 400, year % 400 + 1);
    CivilAt(year / 400, year % 400, doy);
    assert (5 * doy + 2) / 153 == mp;
  }

  lemma DoyInYear(year: int, mp: nat, day: nat)
    requires mp < 12 && 1 <= day <= DaysInMonth(if mp < 10 then year else year + 1, if mp < 10 then mp + 3 else mp - 9)
    ensures 0 <= (153 * mp + 2) / 5 + day - 1 < YearLength(year)
  {
  }

  /** And every day number is the day number of its own, valid date. */
  lemma EveryDayOnce(days: int)
    ensures Valid(CivilFromDays(days)) && DaysFromCivil(CivilFromDays(days)) == days
  {
    hide Leap, CivilFromDays;
    var era, yoe, doy := SplitDay(days);
    CivilAt(era, yoe, doy);
    LeapInEra(era, yoe + 1);
    var mp := DateOfFacts(400 * era + yoe, doy);
    assert (400 * era + yoe) / 400 == era && (400 * era + yoe) % 400 == yoe;
  }

  // ------------------------------------------------------------- block times

  const U32_MAX: nat := 0xFFFF_FFFF

  function Digit(d: nat): char
    requires d < 10
  {
    '0' + d as char
  }

  function Decimal(v: nat): string {
    if v < 10 then [Digit(v)] else Decimal(v / 10) + [Digit(v % 10)]
  }

  /** Zero-filled on the left to at least `width` digits. */
  function Padded(v: nat, width: nat): string {
    var s := Decimal(v);
    if |s| >= width then s else Zeros(width - |s|) + s
  }

  function Zeros(n: nat): string {
    seq(n, i requires 0 <= i < n => '0')
  }

  /** A moment as the fields of its text. */
  datatype Moment = Moment(date: Date, hour: nat, minute: nat, second: nat, ms: nat)

  function MomentOf(n: nat): Moment {
    var ms := 946684800000 + n * 500;
    var secs := ms / 1000;
    var rem := secs % 86400;
    Moment(CivilFromDays(secs / 86400), rem / 3600, rem % 3600 / 60, rem % 60, ms % 1000)
  }

  /** A field of the text: its value, its least width, and what is written after it. */
  datatype Part = Part(value: nat, width: nat, after: string)

  function Parts(m: Moment): seq<Part> {
    [Part(Nat(m.date.year), 4, "-"), Part(m.date.month, 2, "-"), Part(m.date.day, 2, "T"),
     Part(m.hour, 2, ":"), Part(m.minute, 2, ":"), Part(m.second, 2, "."), Part(m.ms, 3, "")]
  }

  function Written(parts: seq<Part>): string {
    if parts == [] then "" else Padded(parts[0].value, parts[0].width) + parts[0].after + Written(parts[1..])
  }

  /** The time of slot `n`: half-second slots from the start of the year 2000. */
  function BlockTime(n: nat): string
    requires n <= U32_MAX
  {
    Written(Parts(MomentOf(n)))
  }

  /** The fields of a slot's time count its milliseconds back. */
  lemma MomentCounts(n: nat)
    ensures var m := MomentOf(n);
            && Valid(m.date) && m.hour < 24 && m.minute < 60 && m.second < 60 && m.ms < 1000
            && 86400000 * DaysFromCivil(m.date) + 3600000 * m.hour + 60000 * m.minute + 1000 * m.second + m.ms
               == 946684800000 + 500 * n
  {
    hide CivilFromDays, DaysFromCivil, Valid;
    var ms := 946684800000 + n * 500;
    EveryDayOnce(ms / 1000 / 86400);
  }

  // ------------------------------------------------ the order of written times

  /** The lexicographic order on texts of one length. */
  predicate Less(a: string, b: string)
    requires |a| == |b|
  {
    a != [] && (a[0] < b[0] || (a[0] == b[0] && Less(a[1..], b[1..])))
  }

  lemma {:induction false} LessPrefix(p: string, a: string, b: string)
    requires |a| == |b|
    ensures Less(p + a, p + b) <==> Less(a, b)
  {
    if p == [] {
      assert p + a == a && p + b == b;
    } else {
      LessPrefix(p[1..], a, b);
      assert (p + a)[1..] == p[1..] + a && (p + b)[1..] == p[1..] + b;
    }
  }

  lemma {:induction false} LessExtends(a: string, b: string, x: string, y: string)
    requires |a| == |b| && |x| == |y| && Less(a, b)
    ensures Less(a + x, b + y)
  {
    assert (a + x)[1..] == a[1..] + x && (b + y)[1..] == b[1..] + y;
    if a[0] == b[0] {
      LessExtends(a[1..], b[1..], x, y);
    }
  }

  function Power10(w: nat): nat { if w == 0 then 1 else 10 * Power10(w - 1) }

  /** A value of at most `w` digits fills exactly `w`. */
  lemma {:induction false} PaddedStep(v: nat, w: nat)
    requires w > 0 && v < Power10(w)
    ensures |Padded(v, w)| == w
    ensures w > 1 ==> Padded(v, w) == Padded(v / 10, w - 1) + [Digit(v % 10)]
    decreases w
  {
    if w > 1 {
      PaddedStep(v / 10, w - 1);
      if v < 10 {
        assert Decimal(v / 10) == "0";
        assert Zeros(w - 1) == Zeros(w - 2) + "0";
      }
    }
  }

  lemma {:induction false} PaddedLess(u: nat, v: nat, w: nat)
    requires w > 0 && u < v < Power10(w)
    ensures |Padded(u, w)| == |Padded(v, w)| == w && Less(Padded(u, w), Padded(v, w))
    decreases w
  {
    hide Padded;
    PaddedStep(u, w);
    PaddedStep(v, w);
    if w == 1 {
      OneDigit(u);
      OneDigit(v);
    } else if u / 10 < v / 10 {
      PaddedLess(u / 10, v / 10, w - 1);
      LessExtends(Padded(u / 10, w - 1), Padded(v / 10, w - 1), [Digit(u % 10)], [Digit(v % 10)]);
    } else {
      LessPrefix(Padded(u / 10, w - 1), [Digit(u % 10)], [Digit(v % 10)]);
    }
  }

  lemma OneDigit(v: nat)
    requires v < 10
    ensures Padded(v, 1) == [Digit(v)]
  {
  }

  /** The fields fit their widths. */
  ghost predicate Fits(parts: seq<Part>) {
    forall p | p in parts :: p.width > 0 && p.value < Power10(p.width)
  }

  ghost predicate SameShape(a: seq<Part>, b: seq<Part>) {
    |a| == |b| && forall i | 0 <= i < |a| :: a[i].width == b[i].width && a[i].after == b[i].after
  }

  /** The first field that differs is the smaller one. */
  ghost predicate PartsLess(a: seq<Part>, b: seq<Part>)
    requires |a| == |b|
  {
    a != [] && (a[0].value < b[0].value || (a[0].value == b[0].value && PartsLess(a[1..], b[1..])))
  }

  lemma {:induction false} SameWidth(a: seq<Part>, b: seq<Part>)
    requires Fits(a) && Fits(b) && SameShape(a, b)
    ensures |Written(a)| == |Written(b)|
  {
    hide Padded;
    if a != [] {
      PaddedStep(a[0].value, a[0].width);
      PaddedStep(b[0].value, b[0].width);
      SameWidth(a[1..], b[1..]);
    }
  }

  lemma {:induction false} WrittenLess(a: seq<Part>, b: seq<Part>)
    requires Fits(a) && Fits(b) && SameShape(a, b) && PartsLess(a, b)
    ensures |Written(a)| == |Written(b)| && Less(Written(a), Written(b))
  {
    hide Padded, Less, Power10;
    SameWidth(a, b);
    SameWidth(a[1..], b[1..]);
    var p, q := a[0], b[0];
    if p.value < q.value {
      PaddedLess(p.value, q.value, p.width);
      var x, y := p.after + Written(a[1..]), q.after + Written(b[1..]);
      LessExtends(Padded(p.value, p.width), Padded(q.value, q.width), x, y);
      assert Written(a) == Padded(p.value, p.width) + x && Written(b) == Padded(q.value, q.width) + y;
    } else {
      WrittenLess(a[1..], b[1..]);
      LessPrefix(Padded(p.value, p.width) + p.after, Written(a[1..]), Written(b[1..]));
    }
  }

  // ------------------------------------------------------ the order of moments

  predicate DateLess(a: Date, b: Date) {
    a.year < b.year || (a.year == b.year && (a.month < b.month || (a.month == b.month && a.day < b.day)))
  }

  /** Later days have later dates. */
  lemma {:induction false} DatesIncrease(a: int, b: int)
    requires a < b
    ensures DateLess(CivilFromDays(a), CivilFromDays(b))
    decreases b - a
  {
    hide CivilFromDays;
    Successor(b - 1);
    EveryDayOnce(b - 1);
    if a < b - 1 { DatesIncrease(a, b - 1); }
  }

  /** Every slot lies in a year of four digits. */
  lemma YearsOfSlots(n: nat)
    requires n <= U32_MAX
    ensures 2000 <= MomentOf(n).date.year <= 2068
  {
    hide CivilFromDays;
    var day := (946684800000 + n * 500) / 1000 / 86400;
    assert 10957 <= day <= 35812;
    Anchors();
    if 10957 < day { DatesIncrease(10957, day); }
    if day < 35812 { DatesIncrease(day, 35812); }
  }

  lemma Anchors()
    ensures CivilFromDays(10957) == Date(2000, 1, 1) && CivilFromDays(35812) == Date(2068, 1, 19)
  {
    hide CivilFromDays;
    EveryDateHit(Date(2000, 1, 1));
    EveryDateHit(Date(2068, 1, 19));
  }

  lemma {:induction false} LessAt(a: seq<Part>, b: seq<Part>, k: nat)
    requires |a| == |b| && k < |a| && a[k].value < b[k].value
    requires forall i | 0 <= i < k :: a[i].value == b[i].value
    ensures PartsLess(a, b)
  {
    if k > 0 { LessAt(a[1..], b[1..], k - 1); }
  }

  lemma DateDecides(a: Moment, b: Moment)
    requires a.date.year >= 0 && DateLess(a.date, b.date)
    ensures PartsLess(Parts(a), Parts(b))
  {
  }

  /** The time of day, in seconds. */
  function Clock(m: Moment): nat { 3600 * m.hour + 60 * m.minute + m.second }

  lemma ClockDecides(a: Moment, b: Moment)
    requires a.date == b.date && a.minute < 60 && a.second < 60 && b.minute < 60 && b.second < 60
    requires Clock(a) < Clock(b) || (Clock(a) == Clock(b) && a.ms < b.ms)
    ensures PartsLess(Parts(a), Parts(b))
  {
    LessAt(Parts(a), Parts(b),
           if a.hour != b.hour then 3 else if a.minute != b.minute then 4 else if a.second != b.second then 5 else 6);
  }

  lemma MomentsIncrease(n: nat, m: nat)
    requires n < m <= U32_MAX
    ensures PartsLess(Parts(MomentOf(n)), Parts(MomentOf(m)))
  {
    hide CivilFromDays, PartsLess, Parts, MomentOf, Clock;
    ClockOf(n);
    ClockOf(m);
    SlotOrder(n, m);
    if Secs(n) / 86400 < Secs(m) / 86400 {
      YearsOfSlots(n);
      DatesIncrease(Secs(n) / 86400, Secs(m) / 86400);
      DateDecides(MomentOf(n), MomentOf(m));
    } else {
      ClockDecides(MomentOf(n), MomentOf(m));
    }
  }

  function Secs(n: nat): nat { (946684800000 + n * 500) / 1000 }

  lemma ClockOf(n: nat)
    ensures var m := MomentOf(n);
            && m.minute < 60 && m.second < 60 && m.hour < 24 && m.ms < 1000
            && m.date == CivilFromDays(Secs(n) / 86400) && Clock(m) == Secs(n) % 86400
            && m.ms == (946684800000 + n * 500) % 1000
  {
    hide CivilFromDays;
  }

  lemma SlotOrder(n: nat, m: nat)
    requires n < m
    ensures || Secs(n) / 86400 < Secs(m) / 86400
            || (Secs(n) / 86400 == Secs(m) / 86400 && Secs(n) % 86400 < Secs(m) % 86400)
            || (Secs(n) == Secs(m) && (946684800000 + n * 500) % 1000 < (946684800000 + m * 500) % 1000)
  {
  }

  lemma MomentFits(n: nat)
    requires n <= U32_MAX
    ensures Fits(Parts(MomentOf(n)))
  {
    hide CivilFromDays;
    YearsOfSlots(n);
    ClockOf(n);
    EveryDayOnce((946684800000 + n * 500) / 1000 / 86400);
    Powers();
  }

  lemma Powers()
    ensures Power10(2) == 100 && Power10(3) == 1000 && Power10(4) == 10000
  {
  }

  /** Block times are strictly increasing over all slots, as texts: of one length, and in
      lexicographic order. */
  lemma BlockTimesIncrease(n: nat, m: nat)
    requires n < m <= U32_MAX
    ensures |BlockTime(n)| == |BlockTime(m)| == 23 && Less(BlockTime(n), BlockTime(m))
  {
    hide Less, Fits, PartsLess, MomentOf, Written;
    MomentFits(n);
    MomentFits(m);
    MomentsIncrease(n, m);
    WrittenLess(Parts(MomentOf(n)), Parts(MomentOf(m)));
    BlockTimeLength(n);
  }

  lemma {:induction false} WrittenLength(parts: seq<Part>)
    requires Fits(parts)
    ensures |Written(parts)| == Widths(parts)
  {
    hide Padded;
    if parts != [] {
      PaddedStep(parts[0].value, parts[0].width);
      WrittenLength(parts[1..]);
    }
  }

  function Widths(parts: seq<Part>): nat {
    if parts == [] then 0 else parts[0].width + |parts[0].after| + Widths(parts[1..])
  }

  lemma BlockTimeLength(n: nat)
    requires n <= U32_MAX
    ensures |BlockTime(n)| == 23
  {
    hide Written, MomentOf, Widths, Fits;
    MomentFits(n);
    var ps := Parts(MomentOf(n));
    WrittenLength(ps);
    assert ps[0..] == ps && ps[7..] == [];
    WidthsFrom(ps, 0);
    WidthsFrom(ps, 1);
    WidthsFrom(ps, 2);
    WidthsFrom(ps, 3);
    WidthsFrom(ps, 4);
    WidthsFrom(ps, 5);
    WidthsFrom(ps, 6);
  }

  lemma WidthsFrom(parts: seq<Part>, i: nat)
    requires i < |parts|
    ensures Widths([]) == 0
    ensures Widths(parts[i..]) == parts[i].width + |parts[i].after| + Widths(parts[i + 1..])
  {
    assert parts[i..][1..] == parts[i + 1..];
  }
}
