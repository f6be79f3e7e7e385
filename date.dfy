/** Date and duration formatting: seconds to milliseconds, a count of
    seconds as minutes and seconds, and the wording of a duration. */
module DateFormat {
  import opened Common

  /** `toJSTimestamp`: a Unix timestamp in seconds as JavaScript
      milliseconds; the seconds are recovered exactly. */
  function ToJSTimestamp(timestamp: int): (ms: int)
    ensures ms % 1000 == 0 && ms / 1000 == timestamp
  {
    timestamp * 1000
  }

  /** The minutes and the seconds left over in `secondsToTime`:
      `Math.floor(seconds / 60)` and the remainder. */
  function TimeParts(seconds: int): (parts: (int, int))
    ensures 60 * parts.0 + parts.1 == seconds
    ensures 0 <= parts.1 < 60
    ensures seconds >= 0 ==> parts.0 >= 0
  {
    var minutes := seconds / 60;
    (minutes, seconds - minutes * 60)
  }

  /** The split is the only one with fewer than 60 seconds left over. */
  lemma TimePartsUnique(minutes: int, secondsLeft: int)
    requires 0 <= secondsLeft < 60
    ensures TimeParts(60 * minutes + secondsLeft) == (minutes, secondsLeft)
  {
    var p := TimeParts(60 * minutes + secondsLeft);
    assert 60 * (p.0 - minutes) == secondsLeft - p.1;
  }

  /** `secondsToTime`: "mm:ss", each part padded by `pad` (the `strPadLeft`
      helper, which is not part of this model). */
  function SecondsToTime(seconds: int, pad: int -> string): (text: string)
    ensures text == pad(TimeParts(seconds).0) + ":" + pad(TimeParts(seconds).1)
  {
    var parts := TimeParts(seconds);
    pad(parts.0) + ":" + pad(parts.1)
  }

  /** Below 100 minutes, with a pad that writes 0 to 99 in two characters,
      the text is five characters with the colon in the middle: the minutes
      before it, the seconds left over after it. */
  lemma SecondsToTimeShape(seconds: int, pad: int -> string)
    requires 0 <= seconds < 6000
    requires forall n :: 0 <= n < 100 ==> |pad(n)| == 2
    ensures var text := SecondsToTime(seconds, pad);
      |text| == 5 && text[2] == ':' &&
      text[..2] == pad(seconds / 60) && text[3..] == pad(seconds % 60)
  {
    var parts := TimeParts(seconds);
    assert parts == (seconds / 60, seconds % 60) by {
      TimePartsUnique(seconds / 60, seconds % 60);
    }
    assert 0 <= parts.0 < 100;
  }

  /** With such a pad that also tells 0 to 99 apart, different counts of
      seconds below 100 minutes never show the same text. */
  lemma SecondsToTimeInjective(a: int, b: int, pad: int -> string)
    requires 0 <= a < 6000 && 0 <= b < 6000
    requires forall n :: 0 <= n < 100 ==> |pad(n)| == 2
    requires forall m, n :: 0 <= m < 100 && 0 <= n < 100 && pad(m) == pad(n) ==> m == n
    requires SecondsToTime(a, pad) == SecondsToTime(b, pad)
    ensures a == b
  {
    SecondsToTimeShape(a, pad);
    SecondsToTimeShape(b, pad);
    var text := SecondsToTime(a, pad);
    assert pad(a / 60) == text[..2] == pad(b / 60);
    assert pad(a % 60) == text[3..] == pad(b % 60);
    assert a / 60 == b / 60 && a % 60 == b % 60;
  }

  /** A date-fns `Duration`: every unit may be missing. */
  datatype Duration = Duration(years: Option<int>, months: Option<int>, days: Option<int>,
                               hours: Option<int>, minutes: Option<int>, seconds: Option<int>)

  /** `if (duration.x)`: a missing unit and a zero are both falsy. */
  predicate Truthy(unit: Option<int>)
  {
    unit.Some? && unit.value != 0
  }

  /** "1 year", "2 years": the plural for more than one. */
  function UnitText(n: int, singular: string, plural: string): string
  {
    IntToString(n) + " " + (if n > 1 then plural else singular)
  }

  /** The short form's parts: "Nm" for non-zero minutes, then "Ns" whenever
      the seconds are present, zero included. */
  function ShortParts(d: Duration): (parts: seq<string>)
    ensures |parts| <= 2
  {
    (if Truthy(d.minutes) then [IntToString(d.minutes.value) + "m"] else []) +
    (if d.seconds.Some? then [IntToString(d.seconds.value) + "s"] else [])
  }

  /** The wording of a duration: only its largest non-zero unit among years,
      months, days and hours; otherwise more than ten minutes in words, and
      below that the short form. */
  function Formatted(d: Duration, delimiter: string): string
  {
    if Truthy(d.years) then UnitText(d.years.value, "year", "years")
    else if Truthy(d.months) then UnitText(d.months.value, "month", "months")
    else if Truthy(d.days) then UnitText(d.days.value, "day", "days")
    else if Truthy(d.hours) then UnitText(d.hours.value, "hour", "hours")
    else if Truthy(d.minutes) && d.minutes.value > 10 then IntToString(d.minutes.value) + " minutes"
    else Join(ShortParts(d), delimiter)
  }

  /** `formattedDuration`: the early returns, then the parts pushed one by
      one and joined. The short form never has more than two parts, so
      `firstTwo` changes nothing. */
  method FormattedDuration(d: Duration, delimiter: string, firstTwo: bool) returns (text: string)
    ensures text == Formatted(d, delimiter)
  {
    var formatted: seq<string> := [];
    if Truthy(d.years) {
      return UnitText(d.years.value, "year", "years");
    }
    if Truthy(d.months) {
      return UnitText(d.months.value, "month", "months");
    }
    if Truthy(d.days) {
      return UnitText(d.days.value, "day", "days");
    }
    if Truthy(d.hours) {
      return UnitText(d.hours.value, "hour", "hours");
    }
    if Truthy(d.minutes) {
      if d.minutes.value > 10 {
        return IntToString(d.minutes.value) + " minutes";
      }
      formatted := formatted + [IntToString(d.minutes.value) + "m"];
    }
    if d.seconds.Some? {
      formatted := formatted + [IntToString(d.seconds.value) + "s"];
    }
    assert formatted == ShortParts(d);
    assert Slice(formatted, 0, 2) == formatted[..|formatted|] == formatted;
    text := Join(if firstTwo then Slice(formatted, 0, 2) else formatted, delimiter);
  }

  /** A larger non-zero unit hides every smaller one: changing the smaller
      units leaves the wording as it is. */
  lemma LargestUnitOnly(d: Duration, e: Duration, delimiter: string)
    requires d.years == e.years && d.months == e.months && d.days == e.days && d.hours == e.hours
    requires Truthy(d.years) || Truthy(d.months) || Truthy(d.days) || Truthy(d.hours)
    ensures Formatted(d, delimiter) == Formatted(e, delimiter)
    ensures Truthy(d.years) ==> Formatted(d, delimiter) == UnitText(d.years.value, "year", "years")
  {
  }

  /** Without years, months, days or hours, more than ten minutes hide the
      seconds; up to ten minutes both appear, minutes first. */
  lemma MinutesAndSeconds(minutes: int, seconds: int, delimiter: string)
    ensures minutes > 10 ==>
      Formatted(Duration(None, None, None, None, Some(minutes), Some(seconds)), delimiter) ==
      IntToString(minutes) + " minutes"
    ensures minutes != 0 && minutes <= 10 ==>
      Formatted(Duration(None, None, None, None, Some(minutes), Some(seconds)), delimiter) ==
      IntToString(minutes) + "m" + delimiter + IntToString(seconds) + "s"
    ensures Formatted(Duration(None, None, None, None, Some(0), Some(seconds)), delimiter) ==
      IntToString(seconds) + "s"
  {
    var d := Duration(None, None, None, None, Some(minutes), Some(seconds));
    if minutes != 0 && minutes <= 10 {
      var parts := ShortParts(d);
      assert parts == [IntToString(minutes) + "m", IntToString(seconds) + "s"];
      assert parts[1..] == [IntToString(seconds) + "s"];
      assert Join(parts, delimiter) == parts[0] + delimiter + Join(parts[1..], delimiter);
    }
  }

  /** The wording of a few durations. */
  lemma FormattedExamples()
    ensures Formatted(Duration(Some(2), Some(3), None, None, None, None), " ") == "2 years"
    ensures Formatted(Duration(Some(0), Some(1), Some(4), None, None, None), " ") == "1 month"
    ensures Formatted(Duration(None, None, None, None, None, None), " ") == ""
  {
    assert NatToString(2) == "2";
    assert NatToString(1) == "1";
  }
}
