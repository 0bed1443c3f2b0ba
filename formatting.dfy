/**
 * The display helpers of the client's shared types: the weekday names, 12-hour
 * clock times and "time ago" texts.
 */
module Formatting {
  import opened Wrappers
  import opened TimeOfDay

  /** `daysOfWeek`: index 0 is Sunday, as in the 0..6 `dayOfWeek` encoding of availability windows. */
  const DaysOfWeek: seq<string> := ["Sunday", "Monday", "Tuesday", "Wednesday", "Thursday", "Friday", "Saturday"]

  /** Seven distinct names, Sunday first and Saturday last. */
  lemma DaysOfWeekAreTheWeek()
    ensures |DaysOfWeek| == 7 && DaysOfWeek[0] == "Sunday" && DaysOfWeek[1] == "Monday" && DaysOfWeek[6] == "Saturday"
    ensures forall i, j :: 0 <= i < j < |DaysOfWeek| ==> DaysOfWeek[i] != DaysOfWeek[j]
  {
  }

  // ---------------------------------------------------------------------------
  // formatTime

  /** `hours % 12 || 12`: the hour on a 12-hour dial. */
  function Hour12(hours: nat): (h: nat)
    ensures 1 <= h <= 12
    ensures h % 12 == hours % 12
    ensures hours < 24 ==> h % 12 + (if hours >= 12 then 12 else 0) == hours
  {
    if hours % 12 == 0 then 12 else hours % 12
  }

  function Period(hours: nat): string {
    if hours >= 12 then "PM" else "AM"
  }

  /**
   * `formatTime`: "H:MM AM" or "HH:MM PM". The hour is not padded, the minute
   * digits are those of the input, and the period is PM from noon on.
   */
  function FormatTime(timeString: string): (r: string)
    requires IsTimeString(timeString)
    ensures r == Decimal(Hour12(HourOf(timeString))) + ":" + timeString[|timeString| - 2..] + " "
               + (if HourOf(timeString) < 12 then "AM" else "PM")
  {
    TwoDigits(MinuteOf(timeString));
    var minutes := PadStart2(Decimal(MinuteOf(timeString)));
    assert minutes == timeString[|timeString| - 2..];
    Decimal(Hour12(HourOf(timeString))) + ":" + minutes + " " + Period(HourOf(timeString))
  }

  /** Reads "h:mm AM" / "hh:mm PM" text back into minutes since midnight. */
  function ReadTime12(text: string): Option<nat> {
    if !(|text| == 7 || |text| == 8) then None
    else
      var hour := text[..|text| - 6];
      var minute := text[|text| - 5..|text| - 3];
      var period := text[|text| - 2..];
      if text[|text| - 6] != ':' || text[|text| - 3] != ' ' || !(period == "AM" || period == "PM") then None
      else if !(forall i :: 0 <= i < |hour| ==> IsDigit(hour[i])) || !IsDigit(minute[0]) || !IsDigit(minute[1]) then None
      else
        var h12 := if |hour| == 1 then DigitValue(hour[0]) else 10 * DigitValue(hour[0]) + DigitValue(hour[1]);
        var h24 := h12 % 12 + (if period == "PM" then 12 else 0);
        Some(h24 * 60 + 10 * DigitValue(minute[0]) + DigitValue(minute[1]))
  }

  /** The value of one or two decimal digits. */
  function DigitsValue(digits: string): nat
    requires (|digits| == 1 || |digits| == 2) && forall i :: 0 <= i < |digits| ==> IsDigit(digits[i])
  {
    if |digits| == 1 then DigitValue(digits[0]) else 10 * DigitValue(digits[0]) + DigitValue(digits[1])
  }

  /** `ReadTime12` takes the text apart at the colon and the space. */
  lemma ReadTime12Parts(hour: string, minute: string, period: string)
    requires (|hour| == 1 || |hour| == 2) && forall i :: 0 <= i < |hour| ==> IsDigit(hour[i])
    requires |minute| == 2 && IsDigit(minute[0]) && IsDigit(minute[1])
    requires period == "AM" || period == "PM"
    ensures ReadTime12(hour + ":" + minute + " " + period)
         == Some((DigitsValue(hour) % 12 + (if period == "PM" then 12 else 0)) * 60 + DigitsValue(minute))
  {
    var text := hour + ":" + minute + " " + period;
    assert text[..|text| - 6] == hour;
    assert text[|text| - 5..|text| - 3] == minute;
    assert text[|text| - 2..] == period;
  }

  /** The pieces of the 12-hour text: the dial hour's digits, the minute's digits and the period. */
  lemma FormatTimeParts(timeString: string)
    requires IsTimeString(timeString)
    ensures var hour := Decimal(Hour12(HourOf(timeString)));
      var minute := timeString[|timeString| - 2..];
      && (|hour| == 1 || |hour| == 2) && (forall i :: 0 <= i < |hour| ==> IsDigit(hour[i]))
      && DigitsValue(hour) == Hour12(HourOf(timeString))
      && |minute| == 2 && IsDigit(minute[0]) && IsDigit(minute[1])
      && DigitsValue(minute) == MinuteOf(timeString)
      && FormatTime(timeString) == hour + ":" + minute + " " + Period(HourOf(timeString))
  {
  }

  /** The 12-hour text loses nothing: it reads back as the time it was made from. */
  lemma FormatTimeReadsBack(timeString: string)
    requires IsTimeString(timeString)
    ensures ReadTime12(FormatTime(timeString)) == Some(TimeToMinutes(timeString))
  {
    var h := HourOf(timeString);
    FormatTimeParts(timeString);
    ReadTime12Parts(Decimal(Hour12(h)), timeString[|timeString| - 2..], Period(h));
  }

  // ---------------------------------------------------------------------------
  // getRelativeTime

  datatype TimeUnit = Minute | Hour | Day | Week

  function UnitName(unit: TimeUnit): string {
    match unit
    case Minute => "minute"
    case Hour => "hour"
    case Day => "day"
    case Week => "week"
  }

  /** "1 hour ago", "3 hours ago": the unit takes an "s" when the count is above one. */
  function AgoText(count: nat, unit: TimeUnit): string {
    Decimal(count) + " " + UnitName(unit) + (if count > 1 then "s" else "") + " ago"
  }

  /** The unit takes its "s" exactly when the count is above one: the text ends in "s ago" just then. */
  lemma AgoTextPlural(count: nat, unit: TimeUnit)
    ensures |AgoText(count, unit)| >= 5
    ensures AgoText(count, unit)[|AgoText(count, unit)| - 5..] == "s ago" <==> count > 1
  {
    var named := Decimal(count) + " " + UnitName(unit);
    if count > 1 {
      assert AgoText(count, unit) == named + "s ago";
    } else {
      var text := named + " ago";
      assert AgoText(count, unit) == text;
      assert text[|text| - 5] == UnitName(unit)[|UnitName(unit)| - 1];
    }
  }

  /** The text, or the fall-back to the calendar date (`formatDate`, not modelled). */
  datatype RelativeText = Text(text: string) | CalendarDate

  /**
   * `getRelativeTime`, given the whole elapsed seconds between the date and
   * now: successive floors by 60, 60 and 24, then weeks under 30 days.
   */
  function GetRelativeTime(diffInSeconds: int): RelativeText {
    if diffInSeconds < 60 then Text("just now")
    else
      var diffInMinutes := diffInSeconds / 60;
      if diffInMinutes < 60 then Text(AgoText(diffInMinutes, Minute))
      else
        var diffInHours := diffInMinutes / 60;
        if diffInHours < 24 then Text(AgoText(diffInHours, Hour))
        else
          var diffInDays := diffInHours / 24;
          if diffInDays < 7 then Text(AgoText(diffInDays, Day))
          else if diffInDays < 30 then Text(AgoText(diffInDays / 7, Week))
          else CalendarDate
  }

  const SecondsPerMinute := 60
  const SecondsPerHour := 3600
  const SecondsPerDay := 86400
  const SecondsPerWeek := 604800

  /**
   * Each bucket shows the elapsed time in one unit, floored: minutes below an
   * hour, hours below a day, days below a week, weeks (1 to 4) below thirty
   * days; under a minute is "just now" and from thirty days on the date.
   */
  lemma {:induction false} RelativeTimeBuckets(diffInSeconds: int)
    ensures GetRelativeTime(diffInSeconds) == Text("just now") <==> diffInSeconds < SecondsPerMinute
    ensures GetRelativeTime(diffInSeconds) == CalendarDate <==> diffInSeconds >= 30 * SecondsPerDay
    ensures SecondsPerMinute <= diffInSeconds < SecondsPerHour ==>
      GetRelativeTime(diffInSeconds) == Text(AgoText(diffInSeconds / SecondsPerMinute, Minute))
    ensures SecondsPerHour <= diffInSeconds < SecondsPerDay ==>
      GetRelativeTime(diffInSeconds) == Text(AgoText(diffInSeconds / SecondsPerHour, Hour))
    ensures SecondsPerDay <= diffInSeconds < SecondsPerWeek ==>
      GetRelativeTime(diffInSeconds) == Text(AgoText(diffInSeconds / SecondsPerDay, Day))
    ensures SecondsPerWeek <= diffInSeconds < 30 * SecondsPerDay ==>
      && GetRelativeTime(diffInSeconds) == Text(AgoText(diffInSeconds / SecondsPerWeek, Week))
      && 1 <= diffInSeconds / SecondsPerWeek <= 4
  {
    if diffInSeconds >= 60 {
      var d: nat := diffInSeconds;
      assert d / 60 / 60 == d / 3600;
      assert d / 3600 / 24 == d / 86400;
      assert d / 86400 / 7 == d / 604800;
      var text := AgoText(d / 60, Minute);
      assert text[0] != 'j';
    }
  }
}
