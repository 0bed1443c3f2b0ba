/**
 * Clock times written as "H:MM" or "HH:MM" strings, the minute offsets the
 * scheduler computes with, and JavaScript's lexicographic string order on them.
 *
 * `timeToMinutes` and `minutesToTime` exist three times in the program (the
 * client utilities, the availability form and the in-memory store); they are
 * the same code and are modelled once here.
 */
module TimeOfDay {

  predicate IsDigit(c: char) { '0' <= c <= '9' }

  function DigitValue(c: char): (d: nat)
    requires IsDigit(c)
    ensures d < 10
  {
    c as int - '0' as int
  }

  function DigitChar(d: nat): (c: char)
    requires d < 10
    ensures IsDigit(c) && DigitValue(c) == d
  {
    ('0' as int + d) as char
  }

  /** The hour alternative `[0-1]?[0-9]|2[0-3]` of the forms' time pattern. */
  predicate IsHourText(h: string) {
    || (|h| == 1 && IsDigit(h[0]))
    || (|h| == 2 && '0' <= h[0] <= '1' && IsDigit(h[1]))
    || (|h| == 2 && h[0] == '2' && '0' <= h[1] <= '3')
  }

  /** The minute part `[0-5][0-9]` of the forms' time pattern. */
  predicate IsMinuteText(m: string) {
    |m| == 2 && '0' <= m[0] <= '5' && IsDigit(m[1])
  }

  /** A whole match of `^([0-1]?[0-9]|2[0-3]):[0-5][0-9]$`. */
  predicate IsTimeString(s: string) {
    && (|s| == 4 || |s| == 5)
    && s[|s| - 3] == ':'
    && IsHourText(s[..|s| - 3])
    && IsMinuteText(s[|s| - 2..])
  }

  /** The zero-padded "HH:MM" form that `minutesToTime` produces. */
  predicate IsCanonical(s: string) {
    IsTimeString(s) && |s| == 5
  }

  /** `Number(hours)` for the text before the colon. */
  function HourOf(s: string): (h: nat)
    requires IsTimeString(s)
    ensures h < 24
  {
    if |s| == 4 then DigitValue(s[0]) else 10 * DigitValue(s[0]) + DigitValue(s[1])
  }

  /** `Number(minutes)` for the text after the colon. */
  function MinuteOf(s: string): (m: nat)
    requires IsTimeString(s)
    ensures m < 60
  {
    10 * DigitValue(s[|s| - 2]) + DigitValue(s[|s| - 1])
  }

  /** `timeToMinutes`: minutes since midnight of a time that matches the pattern. */
  function TimeToMinutes(s: string): (m: nat)
    requires IsTimeString(s)
    ensures m < 1440
  {
    HourOf(s) * 60 + MinuteOf(s)
  }

  /** The minute offset splits back into the hour and the minute that were read. */
  lemma TimeToMinutesParts(s: string)
    requires IsTimeString(s)
    ensures TimeToMinutes(s) / 60 == HourOf(s) && TimeToMinutes(s) % 60 == MinuteOf(s)
  {
  }

  /** `n.toString()`: the decimal digits of `n`, without leading zeros. */
  function Decimal(n: nat): (r: string)
    ensures 1 <= |r| && IsDigit(r[0])
    ensures n < 10 ==> r == [DigitChar(n)]
    ensures 10 <= n < 100 ==> r == [DigitChar(n / 10), DigitChar(n % 10)]
  {
    if n < 10 then [DigitChar(n)] else Decimal(n / 10) + [DigitChar(n % 10)]
  }

  /** `text.padStart(2, '0')`. */
  function PadStart2(text: string): (r: string)
    ensures |r| == if |text| < 2 then 2 else |text|
  {
    if |text| == 0 then "00" else if |text| == 1 then "0" + text else text
  }

  /** `n.toString().padStart(2, '0')` is the two digits of `n` when `n` is below 100. */
  lemma TwoDigits(n: nat)
    ensures var r := PadStart2(Decimal(n));
      n < 100 ==> |r| == 2 && IsDigit(r[0]) && IsDigit(r[1]) && 10 * DigitValue(r[0]) + DigitValue(r[1]) == n
  {
  }

  /**
   * `minutesToTime`: the hours and minutes of a minute offset, each padded to
   * two digits. Within one day this is the canonical "HH:MM" text of the offset.
   */
  function MinutesToTime(m: nat): string {
    PadStart2(Decimal(m / 60)) + ":" + PadStart2(Decimal(m % 60))
  }

  /** Within one day `minutesToTime` writes canonical "HH:MM" text that reads back as the offset. */
  lemma MinutesToTimeRoundTrip(m: nat)
    requires m < 1440
    ensures IsCanonical(MinutesToTime(m)) && TimeToMinutes(MinutesToTime(m)) == m
  {
    TwoDigits(m / 60);
    TwoDigits(m % 60);
  }

  /** The other round trip: a canonical time is reproduced exactly, a one-digit hour gains its zero. */
  lemma TimeRoundTrip(s: string)
    requires IsTimeString(s)
    ensures MinutesToTime(TimeToMinutes(s)) == (if |s| == 5 then s else "0" + s)
  {
    TimeToMinutesParts(s);
    TwoDigits(HourOf(s));
    TwoDigits(MinuteOf(s));
    var r := MinutesToTime(TimeToMinutes(s));
    var t := if |s| == 5 then s else "0" + s;
    assert |r| == |t| == 5;
    assert r[0] == t[0] && r[1] == t[1] && r[2] == t[2] && r[3] == t[3] && r[4] == t[4];
  }

  /** JavaScript's `a <= b` on strings: lexicographic order of the characters. */
  predicate StrLe(a: string, b: string)
    decreases |a|
  {
    if a == [] then true
    else if b == [] then false
    else if a[0] != b[0] then a[0] < b[0]
    else StrLe(a[1..], b[1..])
  }

  /** A common prefix does not decide the string order. */
  lemma {:induction false} StrLeSkipsCommonPrefix(a: string, b: string, k: nat)
    requires k <= |a| && k <= |b| && a[..k] == b[..k]
    ensures StrLe(a, b) == StrLe(a[k..], b[k..])
  {
    if k > 0 {
      assert a[0] == a[..k][0] == b[..k][0] == b[0];
      assert a[1..][..k - 1] == a[1..k] == b[1..k] == b[1..][..k - 1];
      StrLeSkipsCommonPrefix(a[1..], b[1..], k - 1);
      assert a[1..][k - 1..] == a[k..] && b[1..][k - 1..] == b[k..];
    }
  }

  /**
   * On canonical "HH:MM" strings the string comparison the alternative-staff
   * search uses agrees with comparing minute offsets.
   */
  lemma StrLeIsMinuteOrder(a: string, b: string)
    requires IsCanonical(a) && IsCanonical(b)
    ensures StrLe(a, b) <==> TimeToMinutes(a) <= TimeToMinutes(b)
  {
    var ha, hb := HourOf(a), HourOf(b);
    var ma, mb := MinuteOf(a), MinuteOf(b);
    if a[0] != b[0] {
      assert (a[0] < b[0]) == (ha < hb);
    } else if a[1] != b[1] {
      StrLeSkipsCommonPrefix(a, b, 1);
      assert (a[1] < b[1]) == (ha < hb);
    } else if a[3] != b[3] {
      StrLeSkipsCommonPrefix(a, b, 3);
      assert (a[3] < b[3]) == (ma < mb);
    } else {
      StrLeSkipsCommonPrefix(a, b, 4);
      assert a[4..][1..] == [] && b[4..][1..] == [];
      assert (a[4] <= b[4]) == (ma <= mb);
    }
  }

  /**
   * With a one-digit hour, which the forms accept, the string order and the
   * minute order disagree: "9:00" is after "10:00" as a string.
   */
  lemma StrLeDisagreesOnShortHour()
    ensures IsTimeString("9:00") && IsTimeString("10:00")
    ensures TimeToMinutes("9:00") < TimeToMinutes("10:00")
    ensures !StrLe("9:00", "10:00")
  {
    assert "9:00"[0] != "10:00"[0];
  }
}
