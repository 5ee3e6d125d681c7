/** Gregorian calendar arithmetic of the virtual real-time clock. */
module Calendar {
  import opened Modular

  const DAY := 86400
  /** First second of year 10000, counted from 1970. */
  const LIMIT := 253402300800

  datatype Fields = Fields(sec: nat, min: nat, hour: nat, weekday: nat, day: nat, month: nat, year: nat, century: nat)

  predicate Leap(y: nat) { y % 4 == 0 && (y % 100 != 0 || y % 400 == 0) }

  function YearDays(y: nat): nat { 365 + if Leap(y) then 1 else 0 }

  function MonthDays(y: nat, m: nat): (d: nat)
    requires 1 <= m <= 12
    ensures 28 <= d <= 31
  {
    [31, 28, 31, 30, 31, 30, 31, 31, 30, 31, 30, 31][m - 1] + if m == 2 && Leap(y) then 1 else 0
  }

  /** Days from 1970 to the start of year y, and from there to the start of month m. */
  function YearStart(y: nat): nat
    requires y >= 1970
  {
    if y == 1970 then 0 else YearStart(y - 1) + YearDays(y - 1)
  }

  function MonthStart(y: nat, m: nat): nat
    requires 1 <= m <= 13
  {
    if m == 1 then 0 else MonthStart(y, m - 1) + MonthDays(y, m - 1)
  }

  function FullYear(f: Fields): nat { f.century * 100 + f.year }

  predicate Valid(f: Fields) {
    && 1970 <= FullYear(f) <= 9999 && 1 <= f.month <= 12 && 1 <= f.day <= MonthDays(FullYear(f), f.month)
    && f.sec <= 59 && f.min <= 59 && f.hour <= 23 && 1 <= f.weekday <= 7
  }

  /** Days and seconds since 1970 of a valid date. */
  function Days(f: Fields): nat
    requires Valid(f)
  {
    YearStart(FullYear(f)) + MonthStart(FullYear(f), f.month) + f.day - 1
  }

  function Seconds(f: Fields): nat
    requires Valid(f)
  {
    Days(f) * DAY + f.hour * 3600 + f.min * 60 + f.sec
  }

  function CivilWeekday(days: nat): nat { (days + 4) % 7 + 1 }

  // ---- the calendar of a second --------------------------------------------

  /** Year and day of the year, `days` after the start of year y. */
  function YearOf(days: nat, y: nat): (r: (nat, nat))
    requires y >= 1970
    ensures r.0 >= y && r.1 < YearDays(r.0) && YearStart(r.0) + r.1 == YearStart(y) + days
    decreases days
  {
    if days >= YearDays(y) then YearOf(days - YearDays(y), y + 1) else (y, days)
  }

  /** Month and day of the month, `days` after the start of month m of year y. */
  function MonthOf(y: nat, days: nat, m: nat): (r: (nat, nat))
    requires 1 <= m <= 12 && MonthStart(y, m) + days < MonthStart(y, 13)
    ensures m <= r.0 <= 12 && r.1 < MonthDays(y, r.0) && MonthStart(y, r.0) + r.1 == MonthStart(y, m) + days
    decreases days
  {
    if days >= MonthDays(y, m) then
      assert MonthStart(y, m + 1) == MonthStart(y, m) + MonthDays(y, m);
      MonthOf(y, days - MonthDays(y, m), m + 1)
    else (m, days)
  }

  lemma YearLength(y: nat)
    ensures MonthStart(y, 13) == YearDays(y)
  {
    var leap := YearDays(y) - 365;
    assert MonthStart(y, 2) == 31;
    assert MonthStart(y, 3) == 59 + leap;
    assert MonthStart(y, 4) == 90 + leap;
    assert MonthStart(y, 5) == 120 + leap;
    assert MonthStart(y, 6) == 151 + leap;
    assert MonthStart(y, 7) == 181 + leap;
    assert MonthStart(y, 8) == 212 + leap;
    assert MonthStart(y, 9) == 243 + leap;
    assert MonthStart(y, 10) == 273 + leap;
    assert MonthStart(y, 11) == 304 + leap;
    assert MonthStart(y, 12) == 334 + leap;
  }

  function Decoded(seconds: nat): Fields {
    var days := seconds / DAY;
    var (y, rest) := YearOf(days, 1970);
    YearLength(y);
    var (m, d) := MonthOf(y, rest, 1);
    Fields(seconds % 60, seconds / 60 % 60, seconds / 3600 % 24, CivilWeekday(days), d + 1, m, y % 100, y / 100)
  }

  /** decode: two counting loops, one over years and one over months. */
  method Decode(seconds: nat) returns (f: Fields)
    ensures f == Decoded(seconds)
  {
    var days := seconds / DAY;
    var y, rest := CountYears(days);
    YearLength(y);
    var m, d := CountMonths(y, rest);
    f := Fields(seconds % 60, seconds / 60 % 60, seconds / 3600 % 24, CivilWeekday(days), d + 1, m, y % 100, y / 100);
  }

  method CountYears(total: nat) returns (y: nat, days: nat)
    ensures (y, days) == YearOf(total, 1970)
  {
    y, days := 1970, total;
    while days >= YearDays(y)
      invariant y >= 1970 && YearOf(days, y) == YearOf(total, 1970)
    {
      days, y := days - YearDays(y), y + 1;
    }
  }

  method CountMonths(y: nat, rest: nat) returns (m: nat, days: nat)
    requires rest < MonthStart(y, 13)
    ensures (m, days) == MonthOf(y, rest, 1)
  {
    m, days := 1, rest;
    while days >= MonthDays(y, m)
      invariant 1 <= m <= 12 && MonthStart(y, m) + days < MonthStart(y, 13)
                && MonthOf(y, days, m) == MonthOf(y, rest, 1)
      decreases days
    {
      assert MonthStart(y, m + 1) == MonthStart(y, m) + MonthDays(y, m);
      days, m := days - MonthDays(y, m), m + 1;
    }
  }

  /** encode: refuses exactly the invalid dates and counts days with two loops. */
  method Encode(f: Fields) returns (ok: bool, seconds: nat)
    ensures ok == Valid(f)
    ensures ok ==> seconds == Seconds(f)
  {
    var y, m := f.century * 100 + f.year, f.month;
    if y < 1970 || y > 9999 || m < 1 || m > 12 || f.day < 1 || f.day > MonthDays(y, m)
       || f.sec > 59 || f.min > 59 || f.hour > 23 || f.weekday < 1 || f.weekday > 7 {
      return false, 0;
    }
    var days := 0;
    for n := 1970 to y
      invariant days == YearStart(n)
    {
      days := days + YearDays(n);
    }
    for n := 1 to m
      invariant days == YearStart(y) + MonthStart(y, n)
    {
      days := days + MonthDays(y, n);
    }
    return true, (days + f.day - 1) * DAY + f.hour * 3600 + f.min * 60 + f.sec;
  }

  // ---- the two are inverse -------------------------------------------------

  lemma {:induction false} YearsGrow(y: nat, z: nat)
    requires 1970 <= y < z
    ensures YearStart(y) + YearDays(y) <= YearStart(z)
  {
    if y + 1 < z {
      YearsGrow(y, z - 1);
    }
  }

  lemma {:induction false} MonthsGrow(y: nat, m: nat, n: nat)
    requires 1 <= m < n <= 13
    ensures MonthStart(y, m) + MonthDays(y, m) <= MonthStart(y, n)
  {
    if m + 1 < n {
      MonthsGrow(y, m, n - 1);
    }
  }

  /** Leap years up to and including y. */
  function Leaps(y: nat): int { y / 4 - y / 100 + y / 400 }

  lemma QuotientStep(y: nat, d: nat)
    requires y > 0 && d > 0
    ensures y / d == (y - 1) / d + if y % d == 0 then 1 else 0
  {
    var q, s := y / d, y % d;
    if s == 0 {
      assert y - 1 == (q - 1) * d + (d - 1);
      DivModUnique(y - 1, q - 1, d - 1, d);
    } else {
      DivModUnique(y - 1, q, s - 1, d);
    }
  }

  lemma LeapStep(y: nat)
    requires y > 0
    ensures Leaps(y) == Leaps(y - 1) + if Leap(y) then 1 else 0
  {
    QuotientStep(y, 4);
    QuotientStep(y, 100);
    QuotientStep(y, 400);
    if y % 400 == 0 {
      DivModUnique(y, y / 400 * 4, 0, 100);
    }
    if y % 100 == 0 {
      DivModUnique(y, y / 100 * 25, 0, 4);
    }
  }

  lemma {:induction false} YearStartClosed(y: nat)
    requires y >= 1970
    ensures YearStart(y) == 365 * (y - 1970) + Leaps(y - 1) - Leaps(1969)
  {
    if y > 1970 {
      YearStartClosed(y - 1);
      LeapStep(y - 1);
    }
  }

  lemma LimitIsYear10000()
    ensures YearStart(10000) * DAY == LIMIT
  {
    hide YearStart;
    YearStartClosed(10000);
  }

  lemma YearUnique(y: nat, rest: nat)
    requires y >= 1970 && rest < YearDays(y)
    ensures YearOf(YearStart(y) + rest, 1970) == (y, rest)
  {
    var (z, left) := YearOf(YearStart(y) + rest, 1970);
    if z < y {
      YearsGrow(z, y);
    } else if y < z {
      YearsGrow(y, z);
    }
  }

  lemma MonthUnique(y: nat, m: nat, d: nat)
    requires 1 <= m <= 12 && d < MonthDays(y, m)
    ensures MonthStart(y, m) + d < MonthStart(y, 13)
    ensures MonthOf(y, MonthStart(y, m) + d, 1) == (m, d)
  {
    MonthsGrow(y, m, 13);
    var (n, left) := MonthOf(y, MonthStart(y, m) + d, 1);
    if n < m {
      MonthsGrow(y, n, m);
    } else if m < n {
      MonthsGrow(y, m, n);
    }
  }

  lemma ClockSplit(days: nat, h: nat, mi: nat, s: nat)
    requires h <= 23 && mi <= 59 && s <= 59
    ensures var t := days * DAY + h * 3600 + mi * 60 + s;
            t / DAY == days && t % 60 == s && t / 60 % 60 == mi && t / 3600 % 24 == h
  {
    var t := days * DAY + h * 3600 + mi * 60 + s;
    DivModUnique(t, days, h * 3600 + mi * 60 + s, DAY);
    DivModUnique(t, days * 1440 + h * 60 + mi, s, 60);
    DivModUnique(days * 1440 + h * 60 + mi, days * 24 + h, mi, 60);
    DivModUnique(t, days * 24 + h, mi * 60 + s, 3600);
    DivModUnique(days * 24 + h, days, h, 24);
  }

  lemma ClockJoin(t: nat)
    ensures t == t / DAY * DAY + t / 3600 % 24 * 3600 + t / 60 % 60 * 60 + t % 60
  {
    assert t / 60 / 60 == t / 3600 && t / 3600 / 24 == t / DAY;
  }

  /** decode then encode: every second before year 10000 comes back. */
  lemma DecodeEncode(seconds: nat)
    requires seconds < LIMIT
    ensures Valid(Decoded(seconds)) && Seconds(Decoded(seconds)) == seconds
  {
    var days := seconds / DAY;
    var (y, rest) := YearOf(days, 1970);
    LimitIsYear10000();
    YearLength(y);
    if y >= 10000 {
      if y > 10000 {
        YearsGrow(10000, y);
      }
      assert false;
    }
    ClockJoin(seconds);
    assert y / 100 * 100 + y % 100 == y;
  }

  /** encode then decode: every valid date comes back, its weekday recomputed. */
  lemma EncodeDecode(f: Fields)
    requires Valid(f)
    ensures Decoded(Seconds(f)) == Carried(f).(weekday := CivilWeekday(Days(f)))
    ensures Seconds(f) < LIMIT && (f.year < 100 ==> Carried(f) == f)
  {
    hide YearStart, MonthStart, YearDays, MonthDays, YearOf, MonthOf, Days;
    ClockSplit(Days(f), f.hour, f.min, f.sec);
    EncodedDays(f);
    BeforeLimit(f);
    if f.year < 100 {
      assert FullYear(f) / 100 == f.century && FullYear(f) % 100 == f.year;
    }
  }

  /** The same date with a year of the century below 100. */
  function Carried(f: Fields): Fields { f.(century := FullYear(f) / 100, year := FullYear(f) % 100) }

  lemma EncodedDays(f: Fields)
    requires Valid(f)
    ensures var (y, rest) := YearOf(Days(f), 1970);
            y == FullYear(f) && rest < MonthStart(y, 13) && MonthOf(y, rest, 1) == (f.month, f.day - 1)
  {
    var y, m, d := FullYear(f), f.month, f.day - 1;
    hide YearStart, MonthStart, YearDays, MonthDays, YearOf, MonthOf;
    YearLength(y);
    MonthUnique(y, m, d);
    YearUnique(y, MonthStart(y, m) + d);
  }

  lemma BeforeLimit(f: Fields)
    requires Valid(f)
    ensures Seconds(f) < LIMIT
  {
    var y, m := FullYear(f), f.month;
    LimitIsYear10000();
    YearsGrow(y, 10000);
    YearLength(y);
    MonthsGrow(y, m, 13);
    hide YearStart, MonthStart, YearDays, MonthDays;
  }

  /** Two valid dates with the same second differ at most in their weekday. */
  lemma SecondsInjective(f: Fields, g: Fields)
    requires Valid(f) && Valid(g) && Seconds(f) == Seconds(g)
    ensures Carried(f).(weekday := 1) == Carried(g).(weekday := 1)
  {
    EncodeDecode(f);
    EncodeDecode(g);
    hide Carried, Seconds, Days;
  }
}

/** The virtual MC146818: registers, polled flags, alarm and calendar commits. */
module Rtc {
  import opened Modular
  import opened Calendar

  const HZ := 3579545

  datatype Option<T> = None | Some(value: T)

  datatype Flags = Flags(periodic: bool, alarm: bool, update: bool) {
    function Byte(): nat {
      (if periodic then 0x40 else 0) + (if alarm then 0x20 else 0) + if update then 0x10 else 0
    }
  }

  datatype Clock = Clock(
    epoch: nat, base: nat, last: nat, a: nat, b: nat, flags: Flags, bias: nat, staged: Fields, alarm: seq<nat>)

  datatype Outcome = Refused | Done(next: Clock, value: nat)

  predicate Set(r: Clock) { r.b / 0x80 % 2 == 1 }
  predicate Binary(r: Clock) { r.b / 4 % 2 == 1 }
  predicate Hours24(r: Clock) { r.b / 2 % 2 == 1 }
  predicate DividerReset(a: nat) { a / 0x20 % 4 == 3 }

  function Init(epoch: nat, ticks: nat): Option<Clock> {
    if epoch >= LIMIT then None
    else Some(Clock(epoch, ticks, ticks, 0x26, 2, Flags(false, false, false), 0, Fields(0, 0, 0, 0, 0, 0, 0, 0),
                    [0, 0, 0]))
  }

  /** Kept by every access. */
  predicate Ok(r: Clock) {
    && r.base <= r.last && r.epoch < LIMIT && r.a < 0x80 && r.bias < 7
    && |r.alarm| == 3 && InRange(r.staged)
  }

  /** Each field within the limit the register file enforces. */
  predicate InRange(f: Fields) {
    && f.sec <= 59 && f.min <= 59 && f.hour <= 23 && f.weekday <= 7
    && f.day <= 31 && f.month <= 12 && f.year <= 99 && f.century <= 99
  }

  // ---- the periodic rate ---------------------------------------------------

  function Rate(a: nat): (hz: nat)
    ensures hz <= 8192
  {
    [0, 256, 128, 8192, 4096, 2048, 1024, 512, 256, 128, 64, 32, 16, 8, 4, 2][a % 16]
  }

  /** Whole and fractional seconds multiplied apart, so that 64 bits suffice. */
  function Periods(ticks: nat, hz: nat): nat {
    ticks / HZ * hz + ticks % HZ * hz / HZ
  }

  lemma PeriodsExact(ticks: nat, hz: nat)
    ensures Periods(ticks, hz) == ticks * hz / HZ
    ensures ticks < 0x1_0000_0000_0000_0000 && hz <= 8192 ==>
              ticks % HZ * hz < 0x1_0000_0000_0000_0000 && Periods(ticks, hz) < 0x1_0000_0000_0000_0000
  {
    var q, s := ticks / HZ, ticks % HZ;
    assert ticks * hz == s * hz + (q * hz) * HZ by {
      assert ticks == q * HZ + s;
      Spread(q, s, hz);
    }
    DivShift(s * hz, q * hz, HZ);
    if ticks < 0x1_0000_0000_0000_0000 && hz <= 8192 {
      MulLe(q, 0x1_0000_0000_0000_0000 / HZ, hz, 8192);
      MulLe(s, HZ - 1, hz, 8192);
    }
  }

  lemma Spread(q: nat, s: nat, hz: nat)
    ensures (q * HZ + s) * hz == s * hz + (q * hz) * HZ
  {
  }

  lemma PeriodsGrow(t: nat, u: nat, hz: nat)
    requires t <= u
    ensures Periods(t, hz) <= Periods(u, hz)
  {
    PeriodsExact(t, hz);
    PeriodsExact(u, hz);
    MulLe(t, u, hz, hz);
    DivLe(t * hz, u * hz, HZ);
  }

  lemma DivLe(a: nat, b: nat, m: nat)
    requires a <= b && m > 0
    ensures a / m <= b / m
  {
    var p, q := a / m, b / m;
    if q < p {
      assert a >= p * m && b < (q + 1) * m;
      MulLe(q + 1, p, m, m);
    }
  }

  // ---- register formats ----------------------------------------------------

  function Output(v: nat, binary: bool): nat {
    if binary then v else v / 10 * 16 + v % 10
  }

  function Input(v: nat, binary: bool): Option<nat> {
    if binary then Some(v)
    else if v % 16 > 9 || v / 16 > 9 then None
    else Some(v / 16 * 10 + v % 16)
  }

  /** The value of a raw time byte: binary or BCD, 12-hour when the hour register says so. */
  function Parse(r: Clock, hours: bool, raw: nat): Option<nat> {
    if hours && !Hours24(r) then
      match Input(raw % 0x80, Binary(r))
      case None => None
      case Some(d) => if d == 0 || d > 12 then None else Some(d % 12 + if raw / 0x80 % 2 == 1 then 12 else 0)
    else Input(raw, Binary(r))
  }

  function Format(r: Clock, hours: bool, d: nat): nat {
    if hours && !Hours24(r) then
      Output(if d % 12 == 0 then 12 else d % 12, Binary(r)) + if d >= 12 then 0x80 else 0
    else Output(d, Binary(r))
  }

  lemma InputOutput(v: nat, binary: bool)
    requires Input(v, binary).Some?
    ensures Output(Input(v, binary).value, binary) == v
  {
  }

  /** Every accepted byte prints back as itself. */
  lemma ParseFormat(r: Clock, hours: bool, raw: nat)
    requires raw < 256 && Parse(r, hours, raw).Some?
    ensures Format(r, hours, Parse(r, hours, raw).value) == raw
  {
    hide Input, Output, Set, Binary, Hours24;
    if hours && !Hours24(r) {
      InputOutput(raw % 0x80, Binary(r));
      var d := Input(raw % 0x80, Binary(r)).value;
      assert d % 12 == if d == 12 then 0 else d;
    } else {
      InputOutput(raw, Binary(r));
    }
  }

  // ---- the alarm -----------------------------------------------------------

  datatype AlarmField = Bad | Any | At(v: nat)

  function AlarmValue(r: Clock, n: nat, raw: nat): AlarmField {
    if raw / 0x40 % 4 == 3 then Any
    else
      match Parse(r, n == 2, raw)
      case None => Bad
      case Some(d) => if d > (if n == 2 then 23 else 59) then Bad else At(d)
  }

  predicate Agrees(x: AlarmField, v: nat) { x.Any? || (x.At? && x.v == v) }

  /** The alarm rings in second t. */
  predicate Rings(r: Clock, t: nat)
    requires |r.alarm| == 3
  {
    && Agrees(AlarmValue(r, 0, r.alarm[0]), t % 60)
    && Agrees(AlarmValue(r, 1, r.alarm[1]), t / 60 % 60)
    && Agrees(AlarmValue(r, 2, r.alarm[2]), t / 3600 % 24)
  }

  predicate Armed(r: Clock)
    requires |r.alarm| == 3
  {
    !AlarmValue(r, 0, r.alarm[0]).Bad? && !AlarmValue(r, 1, r.alarm[1]).Bad? && !AlarmValue(r, 2, r.alarm[2]).Bad?
  }

  /** Some second after `from`, up to `to`, rings: no limit on the gap. */
  predicate RingsWithin(r: Clock, from: nat, to: nat)
    requires |r.alarm| == 3
  {
    exists t: nat :: from < t <= to && Rings(r, t)
  }

  lemma TimeOfDay(t: nat, k: nat)
    requires k * DAY <= t
    ensures var u := t - k * DAY; u % 60 == t % 60 && u / 60 % 60 == t / 60 % 60 && u / 3600 % 24 == t / 3600 % 24
  {
    var u := t - k * DAY;
    DivShift(u, k * 1440, 60);
    CongIntro(t, u, k * 1440, 60);
    CongIntro(t / 60, u / 60, k * 24, 60);
    DivShift(u, k * 24, 3600);
    CongIntro(t / 3600, u / 3600, k, 24);
  }

  /** Whatever rings after a long gap also rang in its first day. */
  lemma FirstDay(r: Clock, from: nat, to: nat, t: nat) returns (u: nat)
    requires |r.alarm| == 3 && from < t <= to && Rings(r, t)
    ensures from < u <= to && u <= from + DAY && Rings(r, u)
  {
    var k := (t - from - 1) / DAY;
    u := t - k * DAY;
    TimeOfDay(t, k);
    hide AlarmValue;
  }

  /** The alarm scan of `current`: at most one day of seconds is tried. */
  method Scan(r: Clock, from: nat, to: nat) returns (hit: bool)
    requires |r.alarm| == 3 && from < to
    ensures hit == RingsWithin(r, from, to)
  {
    hit := false;
    if !Armed(r) {
      return;
    }
    var count := to - from;
    if count > DAY {
      count := DAY;
    }
    var n := 1;
    while n <= count
      invariant 1 <= n <= count + 1
      invariant forall t: nat | from < t < from + n :: !Rings(r, t)
    {
      if Rings(r, from + n) {
        return true;
      }
      n := n + 1;
    }
    if RingsWithin(r, from, to) {
      ghost var t: nat :| from < t <= to && Rings(r, t);
      ghost var u := FirstDay(r, from, to, t);
      assert false;
    }
  }

  // ---- sampling the clock --------------------------------------------------

  function Elapsed(r: Clock, ticks: nat): nat
    requires r.base <= ticks
  {
    if DividerReset(r.a) then 0 else (ticks - r.base) / HZ
  }

  /** The calendar `elapsed` seconds after the epoch, with the guest's weekday offset. */
  function Shown(r: Clock, elapsed: nat): Fields {
    var f := Decoded(r.epoch + elapsed);
    f.(weekday := Biased(f.weekday, r.bias))
  }

  /** Day number of a second. */
  function DayOf(s: nat): nat { s / DAY }

  function Biased(weekday: nat, bias: nat): nat { (weekday + 6 + bias) % 7 + 1 }

  predicate PeriodPassed(r: Clock, ticks: nat) {
    !DividerReset(r.a) && Rate(r.a) != 0 && Periods(ticks, Rate(r.a)) > Periods(r.last, Rate(r.a))
  }

  /** The flags when time moves to `ticks`, the alarm scanned without a limit. */
  function Flagged(r: Clock, ticks: nat): Flags
    requires Ok(r) && r.last <= ticks
  {
    var f := r.flags.(periodic := r.flags.periodic || PeriodPassed(r, ticks));
    if Set(r) || Elapsed(r, ticks) <= Elapsed(r, r.last) then f
    else f.(update := true,
            alarm := f.alarm || RingsWithin(r, r.epoch + Elapsed(r, r.last), r.epoch + Elapsed(r, ticks)))
  }

  function Current(r: Clock, ticks: nat): Option<(Clock, Fields)>
    requires Ok(r)
  {
    if ticks < r.last then None
    else if !Set(r) && Elapsed(r, ticks) >= LIMIT - r.epoch then None
    else
      Some((r.(flags := Flagged(r, ticks), last := ticks), if Set(r) then r.staged else Shown(r, Elapsed(r, ticks))))
  }

  /** `current`, with its bounded scan, computes the unbounded definition. */
  method Sample(r: Clock, ticks: nat) returns (o: Option<(Clock, Fields)>)
    requires Ok(r)
    ensures o == Current(r, ticks)
  {
    hide PeriodPassed, RingsWithin, Decoded, Biased, Set, InRange, Elapsed;
    if ticks < r.last {
      return None;
    }
    var next, f := r, r.staged;
    if PeriodPassed(r, ticks) {
      next := next.(flags := next.flags.(periodic := true));
    }
    if !Set(r) {
      var elapsed := Elapsed(r, ticks);
      if elapsed >= LIMIT - r.epoch {
        return None;
      }
      var previous := Elapsed(r, r.last);
      if elapsed > previous {
        next := next.(flags := next.flags.(update := true));
        var hit := Scan(r, r.epoch + previous, r.epoch + elapsed);
        if hit {
          next := next.(flags := next.flags.(alarm := true));
        }
      }
      f := Decode(r.epoch + elapsed);
      f := f.(weekday := Biased(f.weekday, r.bias));
    }
    next := next.(last := ticks);
    return Some((next, f));
  }

  // ---- sampling in between is invisible -------------------------------------

  lemma ElapsedGrows(r: Clock, t: nat, u: nat)
    requires r.base <= t <= u
    ensures Elapsed(r, t) <= Elapsed(r, u)
  {
    DivLe(t - r.base, u - r.base, HZ);
  }

  lemma RingsJoin(r: Clock, r': Clock, a: nat, b: nat, c: nat)
    requires |r.alarm| == 3 && r'.alarm == r.alarm && r'.b == r.b && a <= b <= c
    ensures RingsWithin(r, a, c) <==> RingsWithin(r, a, b) || RingsWithin(r', b, c)
  {
    forall t: nat
      ensures Rings(r, t) == Rings(r', t)
    {
    }
    hide Rings;
    if RingsWithin(r, a, b) {
      var t: nat :| a < t <= b && Rings(r, t);
      assert a < t <= c;
    }
    if RingsWithin(r', b, c) {
      var t: nat :| b < t <= c && Rings(r', t);
      assert a < t <= c && Rings(r, t);
    }
    if RingsWithin(r, a, c) {
      var t: nat :| a < t <= c && Rings(r, t);
      assert a < t <= b || b < t <= c;
      assert Rings(r', t);
    }
  }

  lemma FlagsJoin(r: Clock, t1: nat, t2: nat)
    requires Ok(r) && r.last <= t1 <= t2
    ensures var r1 := r.(flags := Flagged(r, t1), last := t1); Ok(r1) && Flagged(r1, t2) == Flagged(r, t2)
  {
    var r1 := r.(flags := Flagged(r, t1), last := t1);
    var hz := Rate(r.a);
    PeriodsGrow(r.last, t1, hz);
    PeriodsGrow(t1, t2, hz);
    ElapsedGrows(r, r.last, t1);
    ElapsedGrows(r, t1, t2);
    RingsJoin(r, r1, r.epoch + Elapsed(r, r.last), r.epoch + Elapsed(r, t1), r.epoch + Elapsed(r, t2));
    assert Elapsed(r1, t1) == Elapsed(r, t1) && Elapsed(r1, t2) == Elapsed(r, t2);
    hide Periods, Elapsed, Rate, RingsWithin, DividerReset;
  }

  /** Catch-up is exact: a sample taken on the way changes no later time or flag,
      and one that is refused could not be followed by one that is not. */
  lemma CurrentCompose(r: Clock, t1: nat, t2: nat)
    requires Ok(r) && r.last <= t1 <= t2
    ensures Current(r, t1).Some? ==> Ok(Current(r, t1).value.0)
                                     && Current(Current(r, t1).value.0, t2) == Current(r, t2)
    ensures Current(r, t1).None? ==> Current(r, t2).None?
  {
    FlagsJoin(r, t1, t2);
    ElapsedGrows(r, t1, t2);
    hide Flagged, Elapsed, Decoded;
    var r1 := r.(flags := Flagged(r, t1), last := t1);
    assert Elapsed(r1, t2) == Elapsed(r, t2) by { SameElapsed(r, r1, t2); }
  }

  lemma SameElapsed(r: Clock, r1: Clock, t: nat)
    requires r1.a == r.a && r1.base == r.base && r.base <= t
    ensures Elapsed(r1, t) == Elapsed(r, t)
  {
  }

  // ---- register access -----------------------------------------------------

  /** Calendar field behind a register number. */
  function Field(reg: nat): Option<nat> {
    if reg == 0 then Some(0) else if reg == 2 then Some(1) else if reg == 4 then Some(2)
    else if reg == 6 then Some(3) else if reg == 7 then Some(4) else if reg == 8 then Some(5)
    else if reg == 9 then Some(6) else if reg == 0x32 then Some(7) else None
  }

  function Get(f: Fields, n: nat): nat {
    if n == 0 then f.sec else if n == 1 then f.min else if n == 2 then f.hour else if n == 3 then f.weekday
    else if n == 4 then f.day else if n == 5 then f.month else if n == 6 then f.year else f.century
  }

  function Put(f: Fields, n: nat, d: nat): Fields {
    if n == 0 then f.(sec := d) else if n == 1 then f.(min := d) else if n == 2 then f.(hour := d)
    else if n == 3 then f.(weekday := d) else if n == 4 then f.(day := d) else if n == 5 then f.(month := d)
    else if n == 6 then f.(year := d) else f.(century := d)
  }

  predicate Storable(n: nat, d: nat)
    requires n < 8
  {
    d <= [59, 59, 23, 7, 31, 12, 99, 99][n] && ((n == 3 || n == 4 || n == 5) ==> d != 0)
  }

  /** Restart the calendar from date g, keeping the guest's weekday as an offset. */
  function Restarted(r: Clock, g: Fields, base: nat): Clock
    requires Valid(g)
  {
    var epoch := Seconds(g);
    r.(epoch := epoch, bias := Bias(g.weekday, Decoded(epoch).weekday), base := base)
  }

  function Bias(chosen: nat, civil: nat): nat { (chosen + 7 - civil) % 7 }

  function WriteField(r: Clock, f: Fields, n: nat, value: nat, ticks: nat): Outcome
    requires n < 8 && r.base <= ticks
  {
    if !Set(r) && n != 7 then Refused
    else
      match Parse(r, n == 2, value % 0x100)
      case None => Refused
      case Some(d) =>
        if !Storable(n, d) then Refused
        else if Set(r) then Done(r.(staged := Put(r.staged, n, d)), value)
        else if !Valid(f.(century := d)) then Refused
        else Done(Restarted(r, f.(century := d), ticks - (ticks - r.base) % HZ), value)
  }

  /** Register A: stopping the divider freezes the calendar where it stands. */
  function WriteA(r: Clock, f: Fields, value: nat, ticks: nat): Outcome {
    var v := value % 0x100;
    if v / 0x10 % 8 != 2 && !DividerReset(v) then Refused
    else if !DividerReset(r.a) && DividerReset(v) then
      if Set(r) then Done(r.(base := ticks, a := v % 0x80), value)
      else if Valid(f) then Done(r.(epoch := Seconds(f), base := ticks, a := v % 0x80), value)
      else Refused
    else if DividerReset(r.a) && !DividerReset(v) then Done(r.(base := ticks, a := v % 0x80), value)
    else Done(r.(a := v % 0x80), value)
  }

  /** Register B: raising SET stages the running date, lowering it commits the staged one. */
  function WriteB(r: Clock, f: Fields, value: nat, ticks: nat): Outcome {
    var v := value % 0x100;
    if v % 2 != 0 || v / 8 % 0x10 != 0 then Refused
    else if !Set(r) then Done(r.(staged := if v >= 0x80 then f else r.staged, b := v), value)
    else if v >= 0x80 then Done(r.(b := v), value)
    else if Valid(r.staged) then Done(Restarted(r, r.staged, ticks).(b := v), value)
    else Refused
  }

  function Write(r: Clock, f: Fields, reg: nat, value: nat, ticks: nat): Outcome
    requires |r.alarm| == 3 && r.base <= ticks
  {
    if Field(reg).Some? then WriteField(r, f, Field(reg).value, value, ticks)
    else if reg == 1 || reg == 3 || reg == 5 then
      var n, v := (reg - 1) / 2, value % 0x100;
      if AlarmValue(r, n, v).Bad? then Refused else Done(r.(alarm := r.alarm[n := v]), value)
    else if reg == 0xa then WriteA(r, f, value, ticks)
    else if reg == 0xb then WriteB(r, f, value, ticks)
    else if reg == 0xc || reg == 0xd then Done(r, value)
    else Refused
  }

  function Read(r: Clock, f: Fields, reg: nat, ticks: nat): Outcome
    requires |r.alarm| == 3 && r.base <= ticks
  {
    if Field(reg).Some? then Done(r, Format(r, reg == 4, Get(f, Field(reg).value)))
    else if reg == 1 || reg == 3 || reg == 5 then Done(r, r.alarm[(reg - 1) / 2])
    else if reg == 0xa then
      var updating := !DividerReset(r.a) && !Set(r) && (ticks - r.base) % HZ >= HZ - 874;
      Done(r, r.a + if updating then 0x80 else 0)
    else if reg == 0xb then Done(r, r.b)
    else if reg == 0xc then Done(r.(flags := Flags(false, false, false)), r.flags.Byte())
    else if reg == 0xd then Done(r, 0x80)
    else Refused
  }

  function Io(r: Clock, reg: nat, write: bool, value: nat, ticks: nat): Outcome
    requires Ok(r)
  {
    match Current(r, ticks)
    case None => Refused
    case Some((next, f)) => if write then Write(next, f, reg, value, ticks) else Read(next, f, reg, ticks)
  }

  /** The device object; a refused access leaves it as it was. */
  class Device {
    var r: Clock

    constructor (epoch: nat, ticks: nat)
      requires epoch < LIMIT
      ensures Some(r) == Init(epoch, ticks) && Ok(r)
    {
      r := Init(epoch, ticks).value;
    }

    method Reset(epoch: nat, ticks: nat) returns (ok: bool)
      requires Ok(r)
      modifies this
      ensures ok == (epoch < LIMIT) && Ok(r) && (if ok then Some(r) == Init(epoch, ticks) else r == old(r))
    {
      if epoch >= LIMIT {
        return false;
      }
      r := Init(epoch, ticks).value;
      return true;
    }

    method Access(reg: nat, write: bool, value: nat, ticks: nat) returns (ok: bool, result: nat)
      requires Ok(r)
      modifies this
      ensures Ok(r)
      ensures ok == Io(old(r), reg, write, value, ticks).Done?
      ensures if ok then Io(old(r), reg, write, value, ticks) == Done(r, result) else r == old(r) && result == value
    {
      ok, result := false, value;
      var o := Sample(r, ticks);
      if o.Some? {
        var (next, f) := o.value;
        var d := if write then Write(next, f, reg, value, ticks) else Read(next, f, reg, ticks);
        if d.Done? {
          IoKeeps(r, reg, write, value, ticks);
          r, result, ok := d.next, d.value, true;
        }
      }
    }
  }

  // ---- what every access keeps ----------------------------------------------

  lemma ShownValid(r: Clock, e: nat)
    requires r.epoch + e < LIMIT
    ensures Valid(Shown(r, e)) && InRange(Shown(r, e))
    ensures Seconds(Shown(r, e)) == r.epoch + e
  {
    hide Decoded, Seconds, Days, MonthDays;
    DecodeEncode(r.epoch + e);
    DecodedRange(r.epoch + e);
    SameSeconds(Decoded(r.epoch + e), Shown(r, e).weekday);
  }

  lemma DecodedRange(s: nat)
    ensures Decoded(s).year < 100 && Decoded(s).weekday == CivilWeekday(DayOf(s))
  {
    hide YearOf, MonthOf, MonthStart;
  }

  lemma SameSeconds(f: Fields, w: nat)
    requires Valid(f) && 1 <= w <= 7
    ensures Valid(f.(weekday := w)) && Days(f.(weekday := w)) == Days(f)
    ensures Seconds(f.(weekday := w)) == Seconds(f)
  {
  }

  lemma CurrentKeeps(r: Clock, ticks: nat)
    requires Ok(r) && Current(r, ticks).Some?
    ensures var (next, f) := Current(r, ticks).value;
            Ok(next) && next.last == ticks && InRange(f) && (Set(r) || Valid(f))
  {
    if !Set(r) {
      ShownValid(r, Elapsed(r, ticks));
    }
    hide Flagged, Elapsed, Shown, Valid, InRange;
  }

  lemma PutInRange(f: Fields, n: nat, d: nat)
    requires InRange(f) && n < 8 && Storable(n, d)
    ensures InRange(Put(f, n, d))
  {
  }

  lemma WriteKeeps(r: Clock, f: Fields, reg: nat, value: nat, ticks: nat)
    requires Ok(r) && r.last == ticks && InRange(f) && Write(r, f, reg, value, ticks).Done?
    ensures var n := Write(r, f, reg, value, ticks).next; Ok(n) && n.last == ticks
  {
    if Field(reg).Some? {
      var n := Field(reg).value;
      var d := Parse(r, n == 2, value % 0x100).value;
      hide Parse, AlarmValue, Storable, Put, Decoded, Seconds, Days, Valid;
      if Set(r) {
        PutInRange(r.staged, n, d);
      } else {
        BeforeLimit(f.(century := d));
      }
    } else if reg == 0xa {
      hide Parse, AlarmValue, Storable, Put, Decoded, Seconds, Days, Valid, InRange;
      if Valid(f) {
        BeforeLimit(f);
      }
    } else if reg == 0xb {
      hide Parse, AlarmValue, Storable, Put, Decoded, Seconds, Days, Valid, InRange;
      if Valid(r.staged) {
        BeforeLimit(r.staged);
      }
    } else {
      hide AlarmValue, WriteA, WriteB, WriteField;
    }
  }

  lemma IoKeeps(r: Clock, reg: nat, write: bool, value: nat, ticks: nat)
    requires Ok(r) && Io(r, reg, write, value, ticks).Done?
    ensures Ok(Io(r, reg, write, value, ticks).next) && Io(r, reg, write, value, ticks).next.last == ticks
  {
    CurrentKeeps(r, ticks);
    var (next, f) := Current(r, ticks).value;
    hide Current;
    if write {
      WriteKeeps(next, f, reg, value, ticks);
    }
    hide Write, Format, Get;
  }

  lemma ReadState(r: Clock, reg: nat, t: nat)
    requires Ok(r) && reg != 0xc && Io(r, reg, false, 0, t).Done?
    ensures Current(r, t).Some? && Io(r, reg, false, 0, t).next == Current(r, t).value.0 && r.last <= t
  {
    hide Flagged, Elapsed, Shown, Format, Get;
  }

  lemma SameIo(r: Clock, r': Clock, reg: nat, write: bool, value: nat, t: nat)
    requires Ok(r) && Ok(r') && Current(r, t) == Current(r', t)
    ensures Io(r, reg, write, value, t) == Io(r', reg, write, value, t)
  {
    hide Current, Write, Read, Ok;
  }

  /** Reading any register but the flags is invisible to every later access. */
  lemma ReadInvisible(r: Clock, reg: nat, t1: nat, reg2: nat, write: bool, value: nat, t2: nat)
    requires Ok(r) && t1 <= t2 && reg != 0xc && Io(r, reg, false, 0, t1).Done?
    ensures Ok(Io(r, reg, false, 0, t1).next)
    ensures Io(Io(r, reg, false, 0, t1).next, reg2, write, value, t2) == Io(r, reg2, write, value, t2)
  {
    hide *;
    ReadState(r, reg, t1);
    CurrentCompose(r, t1, t2);
    SameIo(Current(r, t1).value.0, r, reg2, write, value, t2);
  }

  // ---- dates move as the calendar does ---------------------------------------

  /** Weekday w of day d, on day e. */
  function WeekdayOn(w: nat, d: nat, e: nat): nat
    requires w >= 1 && d <= e
  {
    (w - 1 + e - d) % 7 + 1
  }

  lemma DayGrows(s: nat, k: nat)
    ensures DayOf(s) <= DayOf(s + k)
  {
    DivLe(s, s + k, DAY);
  }

  /** Date f, k seconds later: the civil date, the weekday counted on from f's. */
  function Later(f: Fields, k: nat): Fields
    requires Valid(f)
  {
    var s := Seconds(f);
    DayGrows(s, k);
    Decoded(s + k).(weekday := WeekdayOn(f.weekday, DayOf(s), DayOf(s + k)))
  }

  lemma WeekdaySame(w: nat, d: nat)
    requires 1 <= w <= 7
    ensures WeekdayOn(w, d, d) == w
  {
  }

  lemma WeekdayRange(g: Fields)
    requires Valid(g)
    ensures 1 <= g.weekday <= 7
  {
  }

  lemma LaterZero(f: Fields)
    requires Valid(f) && f.year < 100
    ensures Later(f, 0) == f
  {
    hide Valid, WeekdayOn, Decoded, Seconds, Days, DayOf, Carried, CivilWeekday;
    WeekdayRange(f);
    WeekdaySame(f.weekday, DayOf(Seconds(f)));
    EncodeDecode(f);
  }

  /** The offset stored for a chosen weekday shows it, and moves it with the days. */
  lemma BiasShows(d: nat, e: nat, w: nat)
    requires d <= e && 1 <= w <= 7
    ensures Biased(CivilWeekday(e), Bias(w, CivilWeekday(d))) == WeekdayOn(w, d, e)
  {
    var b := Bias(w, CivilWeekday(d));
    var x, y := (d + 4) / 7, (e + 4) / 7;
    assert CivilWeekday(e) == e + 5 - 7 * y;
    var z := (w + 7 - CivilWeekday(d)) / 7;
    assert b == w + 7 - (d + 5 - 7 * x) - 7 * z;
    CongIntro(CivilWeekday(e) + 6 + b, w - 1 + e - d, 2 - y + x - z, 7);
  }

  lemma BiasMoves(d: nat, e: nat, bias: nat)
    requires d <= e
    ensures Biased(CivilWeekday(e), bias) == WeekdayOn(Biased(CivilWeekday(d), bias), d, e)
  {
    var x, y := (d + 4) / 7, (e + 4) / 7;
    var u := CivilWeekday(d) + 6 + bias;
    var z := u / 7;
    assert CivilWeekday(e) == e + 5 - 7 * y && CivilWeekday(d) == d + 5 - 7 * x;
    CongIntro(CivilWeekday(e) + 6 + bias, u - 7 * z + e - d, z - y + x, 7);
  }

  /** A restarted clock shows its date, k seconds later. */
  lemma RestartedShows(r: Clock, g: Fields, base: nat, k: nat)
    requires Valid(g)
    ensures Shown(Restarted(r, g, base), k) == Later(g, k)
  {
    hide Seconds, Decoded, Valid, CivilWeekday, Biased, Bias, WeekdayOn, DayOf;
    var s := Seconds(g);
    WeekdayRange(g);
    DecodedRange(s);
    DecodedRange(s + k);
    DayGrows(s, k);
    BiasShows(DayOf(s), DayOf(s + k), g.weekday);
  }

  /** A running clock moves its shown date on by exactly the seconds elapsed. */
  lemma ShownMoves(r: Clock, e: nat, k: nat)
    requires r.epoch + e < LIMIT
    ensures Valid(Shown(r, e)) && Shown(r, e + k) == Later(Shown(r, e), k)
  {
    hide Seconds, Decoded, Valid, CivilWeekday, Biased, WeekdayOn, InRange, DayOf;
    var s := r.epoch + e;
    ShownValid(r, e);
    DecodedRange(s);
    DecodedRange(s + k);
    DayGrows(s, k);
    BiasMoves(DayOf(s), DayOf(s + k), r.bias);
    assert r.epoch + (e + k) == s + k;
  }

  /** A sample changes nothing but the flags and the time of the last one. */
  lemma Sampled(r: Clock, t: nat)
    requires Ok(r)
    ensures Current(r, t).Some? <==> r.last <= t && (Set(r) || r.epoch + Elapsed(r, t) < LIMIT)
    ensures Current(r, t).Some? ==>
              var (n, f) := Current(r, t).value;
              n == r.(flags := n.flags, last := t) && f == if Set(r) then r.staged else Shown(r, Elapsed(r, t))
  {
    hide Flagged, Elapsed, Shown, Set, InRange;
  }

  // ---- commits, century writes and the stopped divider ------------------------

  /** Lowering SET is refused exactly when the staged date is not a date. */
  lemma CommitRefusedIff(r: Clock, v: nat, ticks: nat)
    requires Ok(r) && Set(r) && r.last <= ticks && v in {0, 2, 4, 6}
    ensures Io(r, 0xb, true, v, ticks).Refused? <==> !Valid(r.staged)
  {
    hide Io, Current, Valid, Ok, Set, DividerReset, Restarted, Elapsed, Shown;
    Sampled(r, ticks);
    IoModes(r, 0xb, v, ticks);
    SetLow(r, v);
  }

  lemma SetLow(r: Clock, v: nat)
    requires v in {0, 2, 4, 6}
    ensures !Set(r.(b := v)) && v % 0x100 == v && v % 2 == 0 && v / 8 % 0x10 == 0
  {
  }

  lemma CommitState(r: Clock, v: nat, ticks: nat)
    requires Ok(r) && Set(r) && r.last <= ticks && v in {0, 2, 4, 6} && Valid(r.staged)
    ensures Io(r, 0xb, true, v, ticks).Done?
    ensures var n := Io(r, 0xb, true, v, ticks).next;
            && !Set(n) && n == Restarted(r.(flags := n.flags, last := ticks, b := v), r.staged, ticks)
            && n.a == r.a && n.last == ticks && n.base == ticks && n.epoch == Seconds(r.staged)
  {
    hide Io, Current, Valid, Ok, Set, DividerReset, Decoded, Seconds, Bias, Elapsed, Shown;
    Sampled(r, ticks);
    IoModes(r, 0xb, v, ticks);
    SetLow(r, v);
    SameModes(r.(b := v), Io(r, 0xb, true, v, ticks).next);
  }

  /** A committed date runs on from the staged fields, guest-chosen weekday included. */
  lemma CommitShows(r: Clock, v: nat, ticks: nat, t: nat)
    requires Ok(r) && Set(r) && r.last <= ticks <= t && v in {0, 2, 4, 6} && Valid(r.staged)
    ensures Io(r, 0xb, true, v, ticks).Done? && Ok(Io(r, 0xb, true, v, ticks).next)
    ensures var n, k := Io(r, 0xb, true, v, ticks).next, if DividerReset(r.a) then 0 else (t - ticks) / HZ;
            && (Current(n, t).Some? <==> Seconds(r.staged) + k < LIMIT)
            && (Current(n, t).Some? ==> Current(n, t).value.1 == Later(r.staged, k))
  {
    CommitState(r, v, ticks);
    IoKeeps(r, 0xb, true, v, ticks);
    var n := Io(r, 0xb, true, v, ticks).next;
    assert Elapsed(n, t) == if DividerReset(r.a) then 0 else (t - ticks) / HZ;
    hide *;
    Sampled(n, t);
    RestartedShows(r.(flags := n.flags, last := ticks, b := v), r.staged, ticks, Elapsed(n, t));
  }

  /** Within the first second every field reads back as staged. */
  lemma CommitReadsBack(r: Clock, v: nat, ticks: nat, t: nat)
    requires Ok(r) && Set(r) && r.last <= ticks <= t < ticks + HZ && v in {0, 2, 4, 6} && Valid(r.staged)
    ensures Io(r, 0xb, true, v, ticks).Done? && Ok(Io(r, 0xb, true, v, ticks).next)
    ensures var c := Current(Io(r, 0xb, true, v, ticks).next, t); c.Some? && c.value.1 == r.staged
  {
    hide Current, Io, Later, Seconds, Valid, Ok, Set, DividerReset;
    StagedYear(r);
    CommitShows(r, v, ticks, t);
    LaterZero(r.staged);
    BeforeLimit(r.staged);
    assert (t - ticks) / HZ == 0;
  }

  lemma StagedYear(r: Clock)
    requires Ok(r)
    ensures r.staged.year < 100
  {
  }

  lemma PutGet(f: Fields, reg: nat, d: nat, other: nat)
    requires Field(reg).Some? && Field(other).Some?
    ensures var n, m := Field(reg).value, Field(other).value;
            Get(Put(f, n, d), m) == if other == reg then d else Get(f, m)
  {
  }

  lemma SameFormats(r: Clock, r': Clock, hours: bool, x: nat)
    requires r'.b == r.b
    ensures Parse(r', hours, x) == Parse(r, hours, x) && Format(r', hours, x) == Format(r, hours, x)
  {
  }

  lemma IoField(r: Clock, reg: nat, v: nat, ticks: nat)
    requires Ok(r) && Field(reg).Some? && Io(r, reg, true, v, ticks).Done?
    ensures Current(r, ticks).Some?
    ensures var (n, f) := Current(r, ticks).value;
            && n == r.(flags := n.flags, last := ticks) && Set(n) == Set(r) && n.base <= ticks
            && Io(r, reg, true, v, ticks) == WriteField(n, f, Field(reg).value, v, ticks)
  {
    Sampled(r, ticks);
    hide Current, WriteField, Elapsed, Shown, InRange;
  }

  lemma StagedState(r: Clock, reg: nat, v: nat, t1: nat)
    requires Ok(r) && Set(r) && v < 256 && Field(reg).Some? && Io(r, reg, true, v, t1).Done?
    ensures var n, p := Io(r, reg, true, v, t1).next, Parse(r, reg == 4, v);
            && p.Some? && r.last <= t1
            && n == r.(flags := n.flags, last := t1, staged := Put(r.staged, Field(reg).value, p.value))
  {
    hide Io, Current, Ok, Set, Parse, Put, Storable, Format, Elapsed, Shown, Valid, Restarted;
    IoField(r, reg, v, t1);
    Sampled(r, t1);
    SameFormats(r, Current(r, t1).value.0, reg == 4, v);
  }

  lemma StagedRead(r: Clock, reg: nat, t: nat)
    requires Ok(r) && Set(r) && Field(reg).Some? && r.last <= t
    ensures Io(r, reg, false, 0, t).Done?
    ensures Io(r, reg, false, 0, t).value == Format(r, reg == 4, Get(r.staged, Field(reg).value))
  {
    Sampled(r, t);
    SameFormats(r, Current(r, t).value.0, reg == 4, Get(r.staged, Field(reg).value));
    hide Current, Format, Get, Parse, InRange, Shown;
  }

  /** A byte stored under SET reads back unchanged, and no other field moves. */
  lemma StagedReadsBack(r: Clock, reg: nat, v: nat, t1: nat, t2: nat, other: nat)
    requires Ok(r) && Set(r) && t1 <= t2 && v < 256 && Field(reg).Some? && Field(other).Some?
    requires Io(r, reg, true, v, t1).Done?
    ensures var n := Io(r, reg, true, v, t1).next;
            && Ok(n) && Io(n, reg, false, 0, t2).Done? && Io(n, reg, false, 0, t2).value == v
            && (other != reg ==> Io(n, other, false, 0, t2).Done?
                                 && Io(n, other, false, 0, t2).value == Io(r, other, false, 0, t2).value)
  {
    IoKeeps(r, reg, true, v, t1);
    StagedState(r, reg, v, t1);
    var n := Io(r, reg, true, v, t1).next;
    assert Set(n);
    hide *;
    StagedRead(n, reg, t2);
    StagedRead(n, other, t2);
    StagedRead(r, other, t2);
    var d := Parse(r, reg == 4, v).value;
    ParseFormat(r, reg == 4, v);
    SameFormats(r, n, reg == 4, d);
    PutGet(r.staged, reg, d, reg);
    PutGet(r.staged, reg, d, other);
    SameFormats(r, n, other == 4, Get(r.staged, Field(other).value));
  }

  lemma CenturyState(r: Clock, v: nat, ticks: nat)
    requires Ok(r) && !Set(r) && Io(r, 0x32, true, v, ticks).Done?
    ensures Current(r, ticks).Some? && Parse(r, false, v % 0x100).Some?
    ensures var n, f := Io(r, 0x32, true, v, ticks).next, Current(r, ticks).value.1;
            var d := Parse(r, false, v % 0x100).value;
            && r.base <= ticks && Valid(f.(century := d)) && !Set(n) && f.year < 100 && n.last == ticks
            && n == Restarted(r.(flags := n.flags, last := ticks), f.(century := d), ticks - (ticks - r.base) % HZ)
  {
    hide Io, Current, Set, Parse, Valid, Seconds, Decoded, Shown, Format, Elapsed, Storable, Bias;
    IoField(r, 0x32, v, ticks);
    SameFormats(r, Current(r, ticks).value.0, false, v % 0x100);
    CurrentKeeps(r, ticks);
    SameModes(r, Io(r, 0x32, true, v, ticks).next);
  }

  lemma RestartedAt(r: Clock, g: Fields, base: nat)
    requires Valid(g)
    ensures Restarted(r, g, base).base == base && Restarted(r, g, base).epoch == Seconds(g)
  {
    hide Seconds, CivilWeekday;
  }

  lemma PhaseOnly(n: Clock, ticks: nat, phase: nat)
    requires phase < HZ && phase <= ticks && n.base == ticks - phase
    ensures Elapsed(n, ticks) == 0 && (ticks - n.base) % HZ == phase
  {
    DivModUnique(phase, 0, phase, HZ);
  }

  lemma CenturyShows(n: Clock, r: Clock, g: Fields, ticks: nat, phase: nat)
    requires Ok(n) && !Set(n) && Valid(g) && g.year < 100 && phase < HZ && phase <= ticks && n.last == ticks
    requires n == Restarted(r, g, ticks - phase)
    ensures Current(n, ticks).Some? && Current(n, ticks).value.1 == g && (ticks - n.base) % HZ == phase
  {
    hide *;
    RestartedAt(r, g, ticks - phase);
    PhaseOnly(n, ticks, phase);
    Sampled(n, ticks);
    RestartedShows(r, g, ticks - phase, 0);
    LaterZero(g);
    BeforeLimit(g);
  }

  /** Writing the century keeps time of day, weekday and the phase of the second. */
  lemma CenturyKeeps(r: Clock, v: nat, ticks: nat)
    requires Ok(r) && !Set(r) && Io(r, 0x32, true, v, ticks).Done?
    ensures Current(r, ticks).Some? && Parse(r, false, v % 0x100).Some? && r.base <= ticks
    ensures var n, f := Io(r, 0x32, true, v, ticks).next, Current(r, ticks).value.1;
            var d := Parse(r, false, v % 0x100).value;
            && Ok(n) && n.base <= ticks && Current(n, ticks).Some? && Current(n, ticks).value.1 == f.(century := d)
            && (ticks - n.base) % HZ == (ticks - r.base) % HZ
  {
    IoKeeps(r, 0x32, true, v, ticks);
    CenturyState(r, v, ticks);
    hide *;
    var n, f, d := Io(r, 0x32, true, v, ticks).next, Current(r, ticks).value.1, Parse(r, false, v % 0x100).value;
    CenturyShows(n, r.(flags := n.flags, last := ticks), f.(century := d), ticks, (ticks - r.base) % HZ);
    BaseBefore(n);
  }

  lemma BaseBefore(r: Clock)
    requires Ok(r)
    ensures r.base <= r.last
  {
  }

  /** Writes of registers A and B, seen through the sample they start from. */
  lemma IoModes(r: Clock, reg: nat, v: nat, ticks: nat)
    requires Ok(r) && Current(r, ticks).Some? && (reg == 0xa || reg == 0xb)
    ensures var (n, f) := Current(r, ticks).value;
            && n == r.(flags := n.flags, last := ticks) && Set(n) == Set(r) && DividerReset(n.a) == DividerReset(r.a)
            && Io(r, reg, true, v, ticks) == if reg == 0xa then WriteA(n, f, v, ticks) else WriteB(n, f, v, ticks)
  {
    Sampled(r, ticks);
    hide Current, WriteA, WriteB, Ok, DividerReset;
  }

  lemma SameModes(r: Clock, r': Clock)
    requires r'.b == r.b
    ensures Set(r') == Set(r)
  {
  }

  lemma DividerBits(v: nat)
    requires v < 0x100
    ensures DividerReset(v % 0x80) == DividerReset(v)
    ensures v / 0x10 == 2 ==> v / 0x10 % 8 == 2 && v % 0x80 == v && !DividerReset(v)
  {
  }

  lemma StopState(r: Clock, v: nat, ticks: nat)
    requires Ok(r) && !Set(r) && !DividerReset(r.a) && DividerReset(v % 0x100) && Current(r, ticks).Some?
    ensures Io(r, 0xa, true, v, ticks).Done?
    ensures var n, f := Io(r, 0xa, true, v, ticks).next, Current(r, ticks).value.1;
            Valid(f) && n == r.(flags := n.flags, epoch := Seconds(f), base := ticks, last := ticks,
                                a := v % 0x100 % 0x80)
            && DividerReset(n.a)
  {
    hide Io, Current, Valid, Seconds, Ok, InRange, Set, DividerReset;
    CurrentKeeps(r, ticks);
    IoModes(r, 0xa, v, ticks);
    DividerBits(v % 0x100);
  }

  lemma StopShows(r: Clock, ticks: nat, n: Clock)
    requires Ok(r) && !Set(r) && Current(r, ticks).Some? && n.bias == r.bias
    requires Valid(Current(r, ticks).value.1) && n.epoch == Seconds(Current(r, ticks).value.1)
    ensures Shown(n, 0) == Current(r, ticks).value.1 && n.epoch < LIMIT
  {
    Sampled(r, ticks);
    ShownValid(r, Elapsed(r, ticks));
    hide Current, Valid, Seconds, Decoded, Elapsed, Biased, InRange;
  }

  /** A stopped divider holds the date it stopped at and raises no flag. */
  lemma StoppedHolds(r: Clock, v: nat, ticks: nat, t: nat)
    requires Ok(r) && !Set(r) && !DividerReset(r.a) && DividerReset(v % 0x100) && ticks <= t && Current(r, ticks).Some?
    ensures Io(r, 0xa, true, v, ticks).Done? && Ok(Io(r, 0xa, true, v, ticks).next)
    ensures var n := Io(r, 0xa, true, v, ticks).next;
            Current(n, t) == Some((n.(last := t), Current(r, ticks).value.1))
  {
    StopState(r, v, ticks);
    IoKeeps(r, 0xa, true, v, ticks);
    var n, f := Io(r, 0xa, true, v, ticks).next, Current(r, ticks).value.1;
    hide Io;
    StopShows(r, ticks, n);
    assert Flagged(n, t) == n.flags;
    hide Flagged, Shown, Valid, Seconds, Decoded, Set;
  }

  lemma ResumeState(n: Clock, v: nat, t2: nat)
    requires Ok(n) && !Set(n) && DividerReset(n.a) && v % 0x100 / 0x10 == 2 && n.last <= t2
    ensures Io(n, 0xa, true, v, t2).Done?
    ensures var m := Io(n, 0xa, true, v, t2).next;
            && m == n.(flags := m.flags, base := t2, last := t2, a := v % 0x100)
            && !DividerReset(m.a) && !Set(m)
  {
    Sampled(n, t2);
    assert Current(n, t2).Some?;
    hide Io, Current, Valid, Ok, Set, DividerReset, Elapsed;
    IoModes(n, 0xa, v, t2);
    DividerBits(v % 0x100);
    SameModes(n, Io(n, 0xa, true, v, t2).next);
  }

  /** Restarting the divider runs on from the held date in whole seconds. */
  lemma ResumeShows(n: Clock, v: nat, t2: nat, t3: nat)
    requires Ok(n) && !Set(n) && DividerReset(n.a) && v % 0x100 / 0x10 == 2 && n.last <= t2 <= t3
    ensures Io(n, 0xa, true, v, t2).Done? && Ok(Io(n, 0xa, true, v, t2).next)
    ensures Valid(Shown(n, 0))
    ensures var m, k := Io(n, 0xa, true, v, t2).next, (t3 - t2) / HZ;
            && (Current(m, t3).Some? <==> n.epoch + k < LIMIT)
            && (Current(m, t3).Some? ==> Current(m, t3).value.1 == Later(Shown(n, 0), k))
  {
    ResumeState(n, v, t2);
    IoKeeps(n, 0xa, true, v, t2);
    var m, k := Io(n, 0xa, true, v, t2).next, (t3 - t2) / HZ;
    hide Io, Current, Shown, Valid, InRange;
    assert Elapsed(m, t3) == k && n.epoch < LIMIT;
    SameShown(n, m, k);
    hide *;
    Sampled(m, t3);
    ShownMoves(n, 0, k);
  }

  lemma SameShown(n: Clock, m: Clock, k: nat)
    requires m.epoch == n.epoch && m.bias == n.bias
    ensures Shown(m, k) == Shown(n, 0 + k)
  {
    hide Decoded, Biased;
  }
}
