/** Wall-clock helpers of the backend (backend/utils/dateUtils.js): "HH:MM"
    strings, minutes since midnight, half-open interval overlap, and adding
    minutes with a 24-hour wrap.

    JavaScript's `Number(...)` is modelled on the inputs a time field can hold:
    a string of decimal digits (the empty string reads as 0, as `Number("")`
    does) gives its value; anything else gives NaN, written `None` here. */
module DateUtils {
  import opened Base

  predicate IsDigit(c: char) {
    '0' <= c <= '9'
  }

  predicate AllDigits(s: string) {
    forall i :: 0 <= i < |s| ==> IsDigit(s[i])
  }

  function DigitOf(c: char): nat
    requires IsDigit(c)
  {
    c as int - '0' as int
  }

  function DigitChar(d: nat): (c: char)
    requires d < 10
    ensures IsDigit(c) && DigitOf(c) == d
  {
    ('0' as int + d) as char
  }

  /** Decimal value of a digit string, most significant digit first. */
  function DigitsValue(s: string): nat
    requires AllDigits(s)
  {
    if s == [] then 0 else 10 * DigitsValue(s[..|s| - 1]) + DigitOf(s[|s| - 1])
  }

  /** `Number(s)` for one field of a split time. */
  function NumberOf(s: string): Option<nat> {
    if AllDigits(s) then Some(DigitsValue(s)) else None
  }

  /** Position of the first ':' in `s`, or `|s|` when there is none. */
  function ColonIndex(s: string): (i: nat)
    ensures i <= |s|
    ensures forall j :: 0 <= j < i ==> s[j] != ':'
    ensures i < |s| ==> s[i] == ':'
  {
    if s == [] || s[0] == ':' then 0 else 1 + ColonIndex(s[1..])
  }

  /** `parseTime`: the first two ':'-separated fields read as hours and minutes,
      `h * 60 + m`. Without a second field `m` is `undefined`, so the result is NaN. */
  function ParseTime(time: string): Option<nat> {
    var i := ColonIndex(time);
    if i == |time| then None
    else
      var rest := time[i + 1..];
      match (NumberOf(time[..i]), NumberOf(rest[..ColonIndex(rest)]))
      case (Some(h), Some(m)) => Some(h * 60 + m)
      case _ => None
  }

  /** `overlaps`: `a1 < b2 && a2 > b1` on minutes; a NaN operand makes every
      comparison false, hence the whole test. */
  predicate Overlaps(startA: string, endA: string, startB: string, endB: string) {
    match (ParseTime(startA), ParseTime(endA), ParseTime(startB), ParseTime(endB))
    case (Some(a1), Some(a2), Some(b1), Some(b2)) => a1 < b2 && a2 > b1
    case _ => false
  }

  /** JavaScript's `%`: the remainder takes the sign of the dividend. */
  function JsRem(a: int, b: int): int
    requires b > 0
  {
    if a >= 0 then a % b else -((-a) % b)
  }

  lemma JsRemSign(a: int, b: int)
    requires b > 0
    ensures -b < JsRem(a, b) < b
    ensures a >= 0 ==> JsRem(a, b) == a % b
    ensures a < 0 ==> -JsRem(a, b) == (-a) % b
  {
  }

  /** `String(n)` for a natural number. */
  function NatToString(n: nat): string
  {
    if n < 10 then [DigitChar(n)] else NatToString(n / 10) + [DigitChar(n % 10)]
  }

  /** `String(n)` is the decimal numeral of `n`. */
  lemma {:induction false} NatToStringDigits(n: nat)
    ensures AllDigits(NatToString(n)) && DigitsValue(NatToString(n)) == n
    ensures n < 10 ==> |NatToString(n)| == 1
    ensures 10 <= n < 100 ==> |NatToString(n)| == 2
  {
    var s := NatToString(n);
    if n >= 10 {
      NatToStringDigits(n / 10);
      assert s[..|s| - 1] == NatToString(n / 10);
    }
  }

  /** `String(n)` for an integer. */
  function IntToString(n: int): string {
    if n < 0 then "-" + NatToString(-n) else NatToString(n)
  }

  /** `s.padStart(2, '0')`. */
  function Pad2(s: string): string
    decreases 2 - |s|
  {
    if |s| >= 2 then s else Pad2("0" + s)
  }

  /** `padStart` keeps the string as its suffix and fills up to two
      characters with zeros. */
  lemma Pad2Fills(s: string)
    ensures |Pad2(s)| == if |s| < 2 then 2 else |s|
    ensures Pad2(s)[|Pad2(s)| - |s|..] == s
    ensures forall i :: 0 <= i < |Pad2(s)| - |s| ==> Pad2(s)[i] == '0'
  {
    if |s| == 1 {
      assert Pad2(s) == "0" + s;
    } else if |s| == 0 {
      assert "0" + s == "0" && "0" + "0" == "00";
      assert Pad2(s) == Pad2("0") == Pad2("00") == "00";
    }
  }

  /** `addMinutes`: hours `Math.floor(total / 60) % 24` and minutes `total % 60`,
      both with JavaScript's `%`, each padded to two characters. A NaN total
      prints as "NaN". (Dafny's `/` by a positive divisor is floor division.) */
  function AddMinutes(time: string, mins: int): string {
    match ParseTime(time)
    case None => "NaN:NaN"
    case Some(p) => ClockOf(p + mins)
  }

  /** The clock `addMinutes` prints for a total number of minutes. */
  function ClockOf(total: int): string {
    Clock(JsRem(total / 60, 24), JsRem(total, 60))
  }

  /** Two numbers printed and padded, joined by a colon. */
  function Clock(h: int, m: int): string {
    Pad2(IntToString(h)) + ":" + Pad2(IntToString(m))
  }

  // ---------------------------------------------------------------------------
  // Canonical "HH:MM" times

  /** A zero-padded "HH:MM" with minutes below 60 (the hour field may read up to 99). */
  predicate IsCanonical(t: string) {
    && |t| == 5
    && IsDigit(t[0]) && IsDigit(t[1]) && t[2] == ':' && IsDigit(t[3]) && IsDigit(t[4])
    && t[3] <= '5'
  }

  function Hour(t: string): nat
    requires IsCanonical(t)
  {
    10 * DigitOf(t[0]) + DigitOf(t[1])
  }

  function Minute(t: string): nat
    requires IsCanonical(t)
  {
    10 * DigitOf(t[3]) + DigitOf(t[4])
  }

  lemma DigitStringHasNoColon(s: string)
    requires AllDigits(s)
    ensures ColonIndex(s) == |s|
  {
    assert forall j :: 0 <= j < |s| ==> s[j] != ':' by {
      forall j | 0 <= j < |s| ensures s[j] != ':' {
        assert IsDigit(s[j]);
      }
    }
  }

  /** `parseTime("HH:MM")` is `60 * HH + MM` for any digit fields. */
  lemma {:induction false} ParseTimeOfFields(hh: string, mm: string)
    requires AllDigits(hh) && AllDigits(mm)
    ensures ParseTime(hh + ":" + mm) == Some(60 * DigitsValue(hh) + DigitsValue(mm))
  {
    var t := hh + ":" + mm;
    var i := ColonIndex(t);
    assert t[|hh|] == ':';
    assert forall j :: 0 <= j < |hh| ==> t[j] == hh[j] && IsDigit(hh[j]);
    assert i == |hh|;
    assert t[..i] == hh;
    assert t[i + 1..] == mm;
    DigitStringHasNoColon(mm);
    assert mm[..ColonIndex(mm)] == mm;
  }

  lemma TwoDigitsValue(s: string)
    requires |s| == 2 && AllDigits(s)
    ensures DigitsValue(s) == 10 * DigitOf(s[0]) + DigitOf(s[1])
  {
    var p := s[..1];
    assert s[..|s| - 1] == p;
    assert p[..|p| - 1] == [];
    assert DigitsValue(p) == DigitOf(s[0]);
  }

  /** A canonical time parses to `60 * HH + MM`. */
  lemma ParseCanonical(t: string)
    requires IsCanonical(t)
    ensures ParseTime(t) == Some(60 * Hour(t) + Minute(t))
    ensures Minute(t) < 60
  {
    var hh, mm := t[..2], t[3..];
    assert t == hh + ":" + mm;
    ParseTimeOfFields(hh, mm);
    TwoDigitsValue(hh);
    TwoDigitsValue(mm);
  }

  /** The minutes since midnight of a canonical time. */
  function Minutes(t: string): nat
    requires IsCanonical(t)
  {
    60 * Hour(t) + Minute(t)
  }

  /** Two canonical times at the same minute are the same string. */
  lemma CanonicalInjective(a: string, b: string)
    requires IsCanonical(a) && IsCanonical(b)
    requires Minutes(a) == Minutes(b)
    ensures a == b
  {
    ParseCanonical(a);
    ParseCanonical(b);
    assert Hour(a) == Hour(b) && Minute(a) == Minute(b);
    CanonicalFields(a, b);
  }

  // ---------------------------------------------------------------------------
  // Properties of `overlaps`

  /** Overlap is symmetric in its two intervals. */
  lemma OverlapsSymmetric(a1: string, a2: string, b1: string, b2: string)
    ensures Overlaps(a1, a2, b1, b2) == Overlaps(b1, b2, a1, a2)
  {
  }

  /** An interval overlaps itself exactly when it is non-empty: its start
      reads before its end. */
  lemma OverlapsSelf(s: string, e: string)
    ensures Overlaps(s, e, s, e) <==>
      ParseTime(s).Some? && ParseTime(e).Some? && ParseTime(s).value < ParseTime(e).value
  {
  }

  /** On canonical times `overlaps` is the half-open interval test on minutes. */
  lemma CanonicalOverlaps(a1: string, a2: string, b1: string, b2: string)
    requires IsCanonical(a1) && IsCanonical(a2) && IsCanonical(b1) && IsCanonical(b2)
    ensures Overlaps(a1, a2, b1, b2) <==> Minutes(a1) < Minutes(b2) && Minutes(a2) > Minutes(b1)
  {
    ParseCanonical(a1);
    ParseCanonical(a2);
    ParseCanonical(b1);
    ParseCanonical(b2);
  }

  /** Back-to-back slots do not overlap, a half-shifted slot does, and an
      interval overlaps an identical one. */
  lemma OverlapExamples()
    ensures !Overlaps("10:00", "11:00", "11:00", "12:00")
    ensures Overlaps("10:00", "11:00", "10:30", "11:30")
    ensures Overlaps("09:00", "10:00", "09:00", "10:00")
  {
    ParseCanonical("09:00");
    ParseCanonical("10:00");
    ParseCanonical("10:30");
    ParseCanonical("11:00");
    ParseCanonical("11:30");
    ParseCanonical("12:00");
  }

  // ---------------------------------------------------------------------------
  // Properties of `addMinutes`

  lemma PaddedTwoDigits(n: nat)
    requires n < 100
    ensures var s := Pad2(IntToString(n));
      |s| == 2 && IsDigit(s[0]) && IsDigit(s[1]) && 10 * DigitOf(s[0]) + DigitOf(s[1]) == n
  {
    var d := NatToString(n);
    NatToStringDigits(n);
    if n < 10 {
      assert |"0" + d| == 2;
      assert Pad2(d) == "0" + d;
    } else {
      assert Pad2(d) == d;
      TwoDigitsValue(d);
    }
  }

  lemma WrapDay(total: nat)
    ensures 60 * ((total / 60) % 24) + total % 60 == total % 1440
  {
    var q, m := total / 60, total % 60;
    var k, h := q / 24, q % 24;
    assert total == 1440 * k + (60 * h + m);
    assert 0 <= 60 * h + m < 1440;
  }

  /** The two padded fields printed by `addMinutes`, for an hour below 100 and
      a minute below 60, form a canonical time with exactly those fields. */
  lemma PrintedClock(h: nat, m: nat)
    requires h < 100 && m < 60
    ensures IsCanonical(Clock(h, m)) && Hour(Clock(h, m)) == h && Minute(Clock(h, m)) == m
  {
    PaddedTwoDigits(h);
    PaddedTwoDigits(m);
  }

  /** Two canonical times with the same fields are the same string. */
  lemma CanonicalFields(a: string, b: string)
    requires IsCanonical(a) && IsCanonical(b)
    requires Hour(a) == Hour(b) && Minute(a) == Minute(b)
    ensures a == b
  {
    assert a[0] == b[0] && a[1] == b[1] && a[3] == b[3] && a[4] == b[4];
  }

  /** A non-negative total prints as a canonical time whose hour is the
      whole hours modulo one day and whose minute is the leftover minutes. */
  lemma ClockOfFields(total: nat)
    ensures IsCanonical(ClockOf(total))
    ensures Hour(ClockOf(total)) == (total / 60) % 24 && Minute(ClockOf(total)) == total % 60
  {
    var h := JsRem(total / 60, 24);
    var m := JsRem(total, 60);
    assert h == (total / 60) % 24 && m == total % 60;
    PrintedClock(h, m);
  }

  /** A non-negative total prints as a canonical time within the day that
      reads back as the total modulo one day. */
  lemma ClockOfWraps(total: nat)
    ensures IsCanonical(ClockOf(total)) && Hour(ClockOf(total)) < 24
    ensures ParseTime(ClockOf(total)) == Some(total % 1440)
  {
    ClockOfFields(total);
    WrapDay(total);
    ParseCanonical(ClockOf(total));
  }

  /** `addMinutes` of a time that parses prints the clock of the new total. */
  lemma AddMinutesOf(time: string, mins: int, p: nat)
    requires ParseTime(time) == Some(p)
    ensures AddMinutes(time, mins) == ClockOf(p + mins)
  {
  }

  /** For a non-negative total, `addMinutes` yields a canonical "HH:MM" with
      an hour below 24, reading back as the total modulo one day: the result
      wraps past midnight and the day carry is lost. */
  lemma AddMinutesWraps(time: string, mins: int)
    requires ParseTime(time).Some? && ParseTime(time).value + mins >= 0
    ensures var r := AddMinutes(time, mins);
      IsCanonical(r) && Hour(r) < 24 &&
      ParseTime(r) == Some((ParseTime(time).value + mins) % 1440)
  {
    var p := ParseTime(time).value;
    AddMinutesOf(time, mins, p);
    ClockOfWraps(p + mins);
  }

  /** A canonical time within the day prints back as itself. */
  lemma ClockOfCanonical(time: string)
    requires IsCanonical(time) && Hour(time) < 24
    ensures ClockOf(60 * Hour(time) + Minute(time)) == time
  {
    var h, m := Hour(time), Minute(time);
    assert m < 60;
    HoursAndMinutes(h, m);
    assert JsRem((60 * h + m) / 60, 24) == h && JsRem(60 * h + m, 60) == m;
    ClockCanonical(time);
  }

  /** A canonical time prints back from its own fields. */
  lemma ClockCanonical(time: string)
    requires IsCanonical(time) && Hour(time) < 24
    ensures Clock(Hour(time), Minute(time)) == time
  {
    assert Minute(time) < 60;
    PrintedClock(Hour(time), Minute(time));
    CanonicalFields(Clock(Hour(time), Minute(time)), time);
  }

  lemma HoursAndMinutes(h: nat, m: nat)
    requires m < 60
    ensures (60 * h + m) / 60 == h && (60 * h + m) % 60 == m
  {
  }

  /** Adding no minutes to a canonical time within the day gives it back. */
  lemma AddMinutesZero(time: string)
    requires IsCanonical(time) && Hour(time) < 24
    ensures AddMinutes(time, 0) == time
  {
    ParseCanonical(time);
    AddMinutesOf(time, 0, 60 * Hour(time) + Minute(time));
    ClockOfCanonical(time);
  }

  /** Going back before midnight is not wrapped: JavaScript's `%` keeps the
      sign, so half an hour before "00:30" prints as "-1:-30". */
  lemma AddMinutesBeforeMidnight()
    ensures AddMinutes("00:30", -60) == "-1:-30"
  {
    ParseCanonical("00:30");
    AddMinutesOf("00:30", -60, 30);
    assert JsRem(-30 / 60, 24) == -1 && JsRem(-30, 60) == -30;
    PrintedNegatives();
  }

  lemma PrintedNegatives()
    ensures Clock(-1, -30) == "-1:-30"
  {
    assert NatToString(1) == "1";
    assert NatToString(3) == "3";
    assert NatToString(30) == "30";
  }

  /** A time that does not parse gives "NaN:NaN". */
  lemma AddMinutesNaN(mins: int)
    ensures AddMinutes("noon", mins) == "NaN:NaN"
  {
    assert ColonIndex("noon") == 4 by {
      assert "noon"[1..] == "oon";
      assert "oon"[1..] == "on";
      assert "on"[1..] == "n";
    }
  }
}
