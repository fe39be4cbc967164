// formatDuration and formatDurationHM of utils.ts, with the parsers that
// read their output back.
module Format {
  import opened Types
  import opened Text

  /**
   * `Math.floor((ms / unit) % 60)`: JavaScript's `%` on the real quotient
   * keeps the sign of the dividend, so a negative duration gives a
   * non-positive field.
   */
  function ClockField(ms: int, unit: int): int
    requires unit > 0
  {
    if ms >= 0 then (ms / unit) % 60
    else -(((-ms) / unit) % 60) - (if (-ms) % unit == 0 then 0 else 1)
  }

  /** formatDuration: "HH:MM:SS"; hours are not reduced modulo 24. */
  function FormatDuration(ms: int): string
  {
    Pad2(ms / HOUR) + ":" + Pad2(ClockField(ms, MINUTE)) + ":" + Pad2(ClockField(ms, SECOND))
  }

  /** For a non-negative duration the three fields are its whole hours, minutes and seconds. */
  lemma FormatDurationFields(ms: int)
    requires ms >= 0
    ensures 0 <= ClockField(ms, MINUTE) < 60 && 0 <= ClockField(ms, SECOND) < 60
    ensures (ms / HOUR) * HOUR + ClockField(ms, MINUTE) * MINUTE + ClockField(ms, SECOND) * SECOND
      == ms - ms % SECOND
  {
    var secs := ms / SECOND;
    var mins := ms / MINUTE;
    assert mins == secs / 60;
    assert ms / HOUR == mins / 60;
    assert secs == 60 * mins + secs % 60;
    assert mins == 60 * (ms / HOUR) + mins % 60;
  }

  function TwoDigits(s: string, i: nat): Option<int>
    requires i + 2 <= |s|
  {
    if IsDigit(s[i]) && IsDigit(s[i + 1]) then Some(DigitValue(s[i]) * 10 + DigitValue(s[i + 1])) else None
  }

  /** Reads "HH:MM:SS" back into milliseconds. */
  function ParseClock(s: string): Option<int>
  {
    if |s| != 8 || s[2] != ':' || s[5] != ':' then None
    else match (TwoDigits(s, 0), TwoDigits(s, 3), TwoDigits(s, 6))
      case (Some(h), Some(m), Some(sec)) => Some(((h * 60 + m) * 60 + sec) * SECOND)
      case _ => None
  }

  /** Below 100 hours the clock text reads back as the duration cut to whole seconds. */
  lemma FormatDurationRoundTrip(ms: int)
    requires 0 <= ms < 100 * HOUR
    ensures ParseClock(FormatDuration(ms)) == Some(ms - ms % SECOND)
  {
    FormatDurationFields(ms);
    var h, m, sec := ms / HOUR, ClockField(ms, MINUTE), ClockField(ms, SECOND);
    Pad2Digits(h);
    Pad2Digits(m);
    Pad2Digits(sec);
    var s := FormatDuration(ms);
    assert s[0..2] == Pad2(h) && s[3..5] == Pad2(m) && s[6..8] == Pad2(sec);
    assert TwoDigits(s, 0) == Some(h);
    assert TwoDigits(s, 3) == Some(m);
    assert TwoDigits(s, 6) == Some(sec);
  }

  /** formatDurationHM: "0m", "<m>m" below an hour, otherwise "<h>h <m>m". */
  function FormatDurationHM(ms: int): string
  {
    HMText(ms / HOUR, ClockField(ms, MINUTE))
  }

  /** The short text of `hours` and `minutes`: the hours part is left out when it is zero. */
  function HMText(hours: int, minutes: int): string
  {
    if hours == 0 && minutes == 0 then "0m"
    else if hours == 0 then IntToString(minutes) + "m"
    else IntToString(hours) + "h " + IntToString(minutes) + "m"
  }

  /** Index of the first occurrence of `c`. */
  function IndexOf(s: string, c: char): (r: Option<nat>)
    ensures r.Some? ==> r.value < |s| && s[r.value] == c
  {
    if |s| == 0 then None
    else if s[0] == c then Some(0)
    else match IndexOf(s[1..], c)
      case Some(k) => Some(k + 1)
      case None => None
  }

  lemma {:induction false} IndexOfAfterDigits(d: string, t: string)
    requires forall i :: 0 <= i < |d| ==> IsDigit(d[i])
    ensures IndexOf(d + "h" + t, 'h') == Some(|d|)
    decreases |d|
  {
    if |d| > 0 {
      assert (d + "h" + t)[1..] == d[1..] + "h" + t;
      IndexOfAfterDigits(d[1..], t);
    } else {
      assert d + "h" + t == "h" + t;
    }
  }

  lemma {:induction false} IndexOfNone(d: string)
    requires forall i :: 0 <= i < |d| ==> IsDigit(d[i])
    ensures IndexOf(d, 'h') == None
    decreases |d|
  {
    if |d| > 0 {
      IndexOfNone(d[1..]);
    }
  }

  /** Reads "<m>m" or "<h>h <m>m" back into whole minutes. */
  function ParseHM(s: string): Option<int>
  {
    if |s| < 2 || s[|s| - 1] != 'm' then None else ParseHMBody(s[..|s| - 1])
  }

  function ParseHMBody(body: string): Option<int>
  {
    match IndexOf(body, 'h')
    case None => ParseMinutes(body)
    case Some(k) => ParseHoursMinutes(body, k)
  }

  function ParseMinutes(body: string): Option<int>
  {
    match ParseNat(body)
    case Some(m) => Some(m as int)
    case None => None
  }

  function ParseHoursMinutes(body: string, k: nat): Option<int>
    requires k < |body|
  {
    if k + 2 > |body| || body[k + 1] != ' ' then None
    else match (ParseNat(body[..k]), ParseNat(body[k + 2..]))
      case (Some(h), Some(m)) => Some(h * 60 + m)
      case _ => None
  }

  lemma ParseMinutesOnly(m: nat)
    ensures ParseHM(NatToString(m) + "m") == Some(m)
  {
    var s := NatToString(m) + "m";
    NatToStringShape(m);
    ParseNatRoundTrip(m, NatToString(m));
    assert s[..|s| - 1] == NatToString(m);
    IndexOfNone(NatToString(m));
  }

  lemma ParseHoursAndMinutesBody(h: nat, m: nat)
    ensures ParseHMBody(NatToString(h) + "h" + (" " + NatToString(m))) == Some(h * 60 + m)
  {
    var hs, ms := NatToString(h), NatToString(m);
    var body := hs + "h" + (" " + ms);
    NatToStringShape(h);
    IndexOfAfterDigits(hs, " " + ms);
    ParseNatRoundTrip(h, hs);
    ParseNatRoundTrip(m, ms);
    HoursTextParts(hs, ms);
    SplitParses(body, |hs|, h, m);
  }

  /** The parts of "<hours>h <minutes>" around the `h`. */
  lemma HoursTextParts(hs: string, ms: string)
    ensures var body := hs + "h" + (" " + ms);
      body[..|hs|] == hs && body[|hs| + 1] == ' ' && body[|hs| + 2..] == ms
  {
    var body := hs + "h" + (" " + ms);
    assert body[..|hs|] == hs;
    assert body[|hs| + 2..] == ms;
  }

  lemma SplitParses(body: string, k: nat, h: nat, m: nat)
    requires k + 2 <= |body| && body[k + 1] == ' ' && IndexOf(body, 'h') == Some(k)
    requires ParseNat(body[..k]) == Some(h) && ParseNat(body[k + 2..]) == Some(m)
    ensures ParseHMBody(body) == Some(h * 60 + m)
  {
  }

  lemma ParseHoursAndMinutes(h: nat, m: nat)
    ensures ParseHM(NatToString(h) + "h " + NatToString(m) + "m") == Some(h * 60 + m)
  {
    var hs, ms := NatToString(h), NatToString(m);
    var s := hs + "h " + ms + "m";
    assert s[..|s| - 1] == hs + "h" + (" " + ms);
    ParseHoursAndMinutesBody(h, m);
  }

  /** For a non-negative duration the short text reads back as its whole minutes. */
  lemma FormatDurationHMRoundTrip(ms: int)
    requires ms >= 0
    ensures ParseHM(FormatDurationHM(ms)) == Some(ms / MINUTE)
  {
    MinuteFields(ms);
    HMTextRoundTrip(ms / HOUR, ClockField(ms, MINUTE));
  }

  /** Whole minutes are whole hours and the minutes field. */
  lemma MinuteFields(ms: int)
    requires ms >= 0
    ensures ms / HOUR >= 0 && ClockField(ms, MINUTE) >= 0
    ensures ms / MINUTE == (ms / HOUR) * 60 + ClockField(ms, MINUTE)
  {
    FormatDurationFields(ms);
    var mins := ms / MINUTE;
    assert ms / HOUR == mins / 60;
    assert mins == 60 * (ms / HOUR) + mins % 60;
  }

  /** The short text reads back as the minutes it shows. */
  lemma HMTextRoundTrip(hours: nat, minutes: nat)
    ensures ParseHM(HMText(hours, minutes)) == Some(hours * 60 + minutes)
  {
    if hours == 0 && minutes == 0 {
      assert HMText(hours, minutes) == NatToString(0) + "m";
      ParseMinutesOnly(0);
    } else if hours == 0 {
      assert HMText(hours, minutes) == NatToString(minutes) + "m";
      ParseMinutesOnly(minutes);
    } else {
      assert HMText(hours, minutes) == NatToString(hours) + "h " + NatToString(minutes) + "m";
      ParseHoursAndMinutes(hours, minutes);
    }
  }
}
