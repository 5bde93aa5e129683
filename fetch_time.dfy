/**
 * A time of day for a daily job: built from a 12- or 24-hour clock reading
 * and a timezone abbreviation, or from stored milliseconds, and read back as
 * UTC hour and minute, an "H:MM" string and a cron expression.
 */
module FetchTime {
  import opened Wrappers
  import opened Text
  import opened Constants

  const MS_PER_DAY: nat := 24 * MS_PER_HOUR

  /** The largest magnitude of a valid JavaScript Date value, in milliseconds. */
  const MAX_TIME: nat := 8_640_000_000_000_000

  /**
   * The constructed object: `date` is the Date's value, None when it is an
   * Invalid Date (NaN); `error` is set when the timezone was not accepted.
   */
  datatype FetchTime = FetchTime(date: Option<int>, error: Option<string>)

  /** `new Date(t)` for an integral `t`: valid only within the Date range. */
  function MakeDate(t: Option<int>): (d: Option<int>)
    ensures d.Some? <==> t.Some? && -(MAX_TIME as int) <= t.value <= MAX_TIME
    ensures d.Some? ==> d == t
  {
    match t
    case None => None
    case Some(v) => if -(MAX_TIME as int) <= v <= MAX_TIME then Some(v) else None
  }

  function UnknownZone(tz: string): string {
    "ron't know " + tz + " timezone"
  }

  /**
   * The hour after the am/pm marker, as written: "pm" (any case) adds 12
   * whatever the hour, "am" turns 12 into 0, anything else changes nothing.
   */
  function MeridiemHour(hours: nat, pm: Option<string>): (h: nat)
    ensures pm.Some? && Lower(pm.value) == "pm" ==> h == hours + 12
    ensures pm.Some? && Lower(pm.value) == "am" ==> h == (if hours == 12 then 0 else hours)
    ensures pm.None? || (Lower(pm.value) != "pm" && Lower(pm.value) != "am") ==> h == hours
  {
    if pm.None? then hours
    else if Lower(pm.value) == "pm" then hours + 12
    else if Lower(pm.value) == "am" then (if hours == 12 then 0 else hours)
    else hours
  }

  /** The timezone is given (a non-empty abbreviation). */
  predicate HasZone(tz: Option<string>) { tz.Some? && tz.value != "" }

  /**
   * The constructor on a clock reading, as a function: the milliseconds of
   * `hours:minutes` after the am/pm marker, minus the zone's offset in
   * minutes. A zone missing from the table makes the time NaN; a missing zone
   * and a zone whose offset is 0 both set `error`.
   */
  function Clock(hours: nat, minutes: nat, pm: Option<string>, tz: Option<string>, offsets: map<string, int>): (t: FetchTime)
    ensures t.error.Some? <==> HasZone(tz) && (tz.value !in offsets || offsets[tz.value] == 0)
    ensures HasZone(tz) && tz.value !in offsets ==> t.date.None?
    ensures !HasZone(tz) ==>
      t.date == MakeDate(Some(MeridiemHour(hours, pm) * MS_PER_HOUR + minutes * MS_PER_MIN))
    ensures HasZone(tz) && tz.value in offsets ==>
      t.date == MakeDate(Some(MeridiemHour(hours, pm) * MS_PER_HOUR + minutes * MS_PER_MIN
                              - offsets[tz.value] * MS_PER_MIN))
  {
    var local := MeridiemHour(hours, pm) * MS_PER_HOUR + minutes * MS_PER_MIN;
    if !HasZone(tz) then FetchTime(MakeDate(Some(local)), None)
    else if tz.value !in offsets then FetchTime(None, Some(UnknownZone(tz.value)))
    else
      var offset := offsets[tz.value];
      FetchTime(MakeDate(Some(local - offset * MS_PER_MIN)),
                if offset == 0 then Some(UnknownZone(tz.value)) else None)
  }

  /** The constructor on a clock reading, accumulating the time step by step as the source does. */
  method FromClock(hours: nat, minutes: nat, pm: Option<string>, tz: Option<string>, offsets: map<string, int>)
    returns (t: FetchTime)
    ensures t == Clock(hours, minutes, pm, tz, offsets)
  {
    var time: Option<int> := Some(hours);
    if pm.Some? {
      var marker := Lower(pm.value);
      if marker == "pm" {
        time := Some(time.value + 12);
      } else if marker == "am" {
        if time.value == 12 { time := Some(0); }
      }
    }
    time := Some(time.value * MS_PER_HOUR);
    time := Some(time.value + minutes * MS_PER_MIN);
    var error: Option<string> := None;
    if HasZone(tz) {
      var zone := tz.value;
      if zone !in offsets || offsets[zone] == 0 {
        error := Some(UnknownZone(zone));
      }
      if zone in offsets {
        time := Some(time.value - offsets[zone] * MS_PER_MIN);
      } else {
        time := None;
      }
    }
    t := FetchTime(MakeDate(time), error);
  }

  /** The constructor on stored milliseconds. */
  function FromMs(ms: int): (t: FetchTime)
    ensures t.error.None?
  {
    FetchTime(MakeDate(Some(ms)), None)
  }

  /** `ms`: the Date's value, NaN (None) for an Invalid Date. */
  function Ms(t: FetchTime): (r: Option<int>)
    ensures r.None? <==> Hours(t).None? && Minutes(t).None?
  {
    t.date
  }

  /** `hours`: the UTC hour of the Date. */
  function Hours(t: FetchTime): (h: Option<nat>)
    ensures h.Some? <==> t.date.Some?
    ensures h.Some? ==> h.value < 24
  {
    match t.date
    case None => None
    case Some(v) => Some((v % MS_PER_DAY) / MS_PER_HOUR)
  }

  /** `minutes`: the UTC minute of the Date. */
  function Minutes(t: FetchTime): (m: Option<nat>)
    ensures m.Some? <==> t.date.Some?
    ensures m.Some? ==> m.value < 60
  {
    match t.date
    case None => None
    case Some(v) => Some((v % MS_PER_HOUR) / MS_PER_MIN)
  }

  /** A number in a template literal: its decimal text, or "NaN". */
  function NumText(n: Option<nat>): string {
    match n
    case None => "NaN"
    case Some(v) => NatText(v)
  }

  /** `gmt`: the hour unpadded, a colon, the minute padded to two digits ("NaN:NaN" when invalid). */
  function Gmt(t: FetchTime): (r: string)
    ensures t.date.None? ==> r == "NaN:NaN"
  {
    NumText(Hours(t)) + ":" + (if Minutes(t).Some? && Minutes(t).value < 10 then "0" else "") + NumText(Minutes(t))
  }

  /**
   * `cron`: "<minutes> <hours> * * *" with the UTC minute and hour ("NaN NaN
   * * * *" when invalid). It is read in the host's time zone, so it means
   * that UTC time only on a host that runs in UTC.
   */
  function Cron(t: FetchTime): (r: string)
    ensures t.date.None? ==> r == "NaN NaN * * *"
    ensures |r| >= 6 && r[|r| - 6..] == " * * *"
  {
    NumText(Minutes(t)) + " " + NumText(Hours(t)) + " * * *"
  }

  /**
   * The hour and minute are the time of day of the Date (taken modulo a day,
   * also before 1970): the milliseconds since UTC midnight are the hour, the
   * minute and the milliseconds within the minute.
   */
  lemma TimeOfDay(t: FetchTime)
    requires t.date.Some?
    ensures t.date.value % MS_PER_DAY
      == Hours(t).value * MS_PER_HOUR + Minutes(t).value * MS_PER_MIN + t.date.value % MS_PER_MIN
  {
    var v := t.date.value;
    var d := v % MS_PER_DAY;
    assert v == (v / MS_PER_DAY) * MS_PER_DAY + d;
    var r := d % MS_PER_HOUR;
    assert d == (d / MS_PER_HOUR) * MS_PER_HOUR + r;
    assert v == (24 * (v / MS_PER_DAY) + d / MS_PER_HOUR) * MS_PER_HOUR + r;
    ModUnique(v, 24 * (v / MS_PER_DAY) + d / MS_PER_HOUR, r, MS_PER_HOUR);
    var r2 := r % MS_PER_MIN;
    assert r == (r / MS_PER_MIN) * MS_PER_MIN + r2;
    assert v == (60 * (24 * (v / MS_PER_DAY) + d / MS_PER_HOUR) + r / MS_PER_MIN) * MS_PER_MIN + r2;
    ModUnique(v, 60 * (24 * (v / MS_PER_DAY) + d / MS_PER_HOUR) + r / MS_PER_MIN, r2, MS_PER_MIN);
  }

  /** The remainder is unique, for the three units of the day. */
  lemma ModUnique(x: int, q: int, r: int, n: int)
    requires n == MS_PER_MIN || n == MS_PER_HOUR || n == MS_PER_DAY
    requires 0 <= r < n && x == q * n + r
    ensures x % n == r
  {
    if n == 60000 {
      assert x == q * 60000 + r;
    } else if n == 3600000 {
      assert x == q * 3600000 + r;
    } else {
      assert x == q * 86400000 + r;
    }
  }

  /** Restoring from stored milliseconds keeps them: `new FetchTime({ms}).ms == ms` in the Date range. */
  lemma FromMsKeepsMs(ms: int)
    ensures -(MAX_TIME as int) <= ms <= MAX_TIME ==> Ms(FromMs(ms)) == Some(ms)
    ensures ms < -(MAX_TIME as int) || ms > MAX_TIME ==> Ms(FromMs(ms)).None?
  {
  }

  /** Two stored times a whole number of days apart give the same cron expression and display. */
  lemma DailyPeriodic(ms: int, k: int)
    requires -(MAX_TIME as int) <= ms <= MAX_TIME
    requires -(MAX_TIME as int) <= ms + k * MS_PER_DAY <= MAX_TIME
    ensures Cron(FromMs(ms + k * MS_PER_DAY)) == Cron(FromMs(ms))
    ensures Gmt(FromMs(ms + k * MS_PER_DAY)) == Gmt(FromMs(ms))
  {
    var v := ms + k * MS_PER_DAY;
    var d := ms % MS_PER_DAY;
    assert ms == (ms / MS_PER_DAY) * MS_PER_DAY + d;
    assert v == (ms / MS_PER_DAY + k) * MS_PER_DAY + d;
    ModUnique(v, ms / MS_PER_DAY + k, d, MS_PER_DAY);
    var r := ms % MS_PER_HOUR;
    assert ms == (ms / MS_PER_HOUR) * MS_PER_HOUR + r;
    assert v == (ms / MS_PER_HOUR + 24 * k) * MS_PER_HOUR + r;
    ModUnique(v, ms / MS_PER_HOUR + 24 * k, r, MS_PER_HOUR);
  }

  /**
   * `gmt` reads back: up to the colon is the hour's decimal text, after it
   * exactly two digits whose value is the minute.
   */
  lemma GmtReadsBack(t: FetchTime)
    requires t.date.Some?
    ensures var s, k := Gmt(t), |NatText(Hours(t).value)|;
      && k < |s| && s[k] == ':'
      && AllDigits(s[..k]) && DigitsValue(s[..k]) == Hours(t).value
      && |s| == k + 3 && AllDigits(s[k + 1..]) && DigitsValue(s[k + 1..]) == Minutes(t).value
  {
    var h, m := Hours(t).value, Minutes(t).value;
    var s := Gmt(t);
    NatTextRoundTrip(h);
    PaddedMinutes(m);
    var k := |NatText(h)|;
    var mm := (if m < 10 then "0" else "") + NatText(m);
    assert s == NatText(h) + ":" + mm;
    assert s[..k] == NatText(h);
    assert s[k + 1..] == mm;
  }

  /**
   * `cron` reads back: up to the first space is the minute's decimal text,
   * then the hour's decimal text, then the three wildcard fields, so the job
   * fires at that minute of that hour every day.
   */
  lemma CronReadsBack(t: FetchTime)
    requires t.date.Some?
    ensures var s, k := Cron(t), |NatText(Minutes(t).value)|;
      && k < |s| && s[k] == ' '
      && AllDigits(s[..k]) && DigitsValue(s[..k]) == Minutes(t).value
      && s[k + 1..] == NatText(Hours(t).value) + " * * *"
      && AllDigits(NatText(Hours(t).value)) && DigitsValue(NatText(Hours(t).value)) == Hours(t).value
  {
    var h, m := Hours(t).value, Minutes(t).value;
    var s := Cron(t);
    NatTextRoundTrip(h);
    NatTextRoundTrip(m);
    assert s == NatText(m) + " " + (NatText(h) + " * * *");
    assert s[..|NatText(m)|] == NatText(m);
  }

  /** Minutes are written with two digits that read back as the minutes. */
  lemma PaddedMinutes(m: nat)
    requires m < 60
    ensures var mm := (if m < 10 then "0" else "") + NatText(m);
      |mm| == 2 && AllDigits(mm) && DigitsValue(mm) == m
  {
    var mm := (if m < 10 then "0" else "") + NatText(m);
    if m < 10 {
      assert mm == [DigitChar(0), DigitChar(m)];
      assert mm[..1] == [DigitChar(0)];
    } else {
      assert NatText(m) == NatText(m / 10) + [DigitChar(m % 10)];
      assert NatText(m / 10) == [DigitChar(m / 10)];
      assert mm == [DigitChar(m / 10), DigitChar(m % 10)];
      assert mm[..1] == [DigitChar(m / 10)];
      assert DigitsValue(mm[..1]) == m / 10;
      assert DigitsValue(mm) == (m / 10) * 10 + m % 10;
    }
  }


  /** 3:30pm in a zone five hours behind UTC is 20:30 UTC. */
  lemma AfternoonInZoneBehindUtc(offsets: map<string, int>)
    requires "EST" in offsets && offsets["EST"] == -300
    ensures var t := Clock(3, 30, Some("pm"), Some("EST"), offsets);
      t.error.None? && Hours(t) == Some(20) && Minutes(t) == Some(30)
  {
    assert Lower("pm") == "pm";
  }

  /** 12am is midnight. */
  lemma MidnightIsZero(offsets: map<string, int>)
    ensures Hours(Clock(12, 0, Some("am"), None, offsets)) == Some(0)
  {
    assert Lower("am") == "am";
    assert Lower("am") != "pm";
  }

  /** As written, 12pm adds 12 to 12: the hour is 24, which is midnight of the next day in UTC, not noon. */
  lemma NoonAsWritten(offsets: map<string, int>)
    ensures MeridiemHour(12, Some("pm")) == 24
    ensures Hours(Clock(12, 0, Some("pm"), None, offsets)) == Some(0)
  {
    assert Lower("pm") == "pm";
  }

  /** As written, a known zone whose offset is 0 (such as UTC) sets `error`, though the time is right. */
  lemma ZeroOffsetFlagged(hours: nat, minutes: nat, pm: Option<string>, tz: string, offsets: map<string, int>)
    requires tz != "" && tz in offsets && offsets[tz] == 0
    ensures Clock(hours, minutes, pm, Some(tz), offsets).error == Some(UnknownZone(tz))
    ensures Clock(hours, minutes, pm, Some(tz), offsets).date == Clock(hours, minutes, pm, None, offsets).date
  {
  }

  /**
   * The am/pm marker as intended: 12am is midnight, 12pm is noon, and any
   * other pm hour adds 12.
   */
  function MeridiemHourFixed(hours: nat, pm: Option<string>): (h: nat)
    ensures hours <= 12 && pm.Some? && Lower(pm.value) == "am" ==> h == hours % 12
    ensures 1 <= hours <= 12 && pm.Some? && Lower(pm.value) == "pm" ==> h == hours % 12 + 12
    ensures pm.None? || (Lower(pm.value) != "pm" && Lower(pm.value) != "am") ==> h == hours
    ensures hours != 12 ==> h == MeridiemHour(hours, pm)
  {
    if pm.None? then hours
    else if Lower(pm.value) == "pm" then (if hours == 12 then 12 else hours + 12)
    else if Lower(pm.value) == "am" then (if hours == 12 then 0 else hours)
    else hours
  }

  /** Every hour of the day has exactly one 12-hour reading, and the corrected marker maps it back. */
  lemma TwelveHourReading(h24: nat)
    requires h24 < 24
    ensures var hours := if h24 % 12 == 0 then 12 else h24 % 12;
      1 <= hours <= 12 && MeridiemHourFixed(hours, Some(if h24 < 12 then "am" else "pm")) == h24
  {
    assert Lower("am") == "am" && Lower("pm") == "pm";
  }

  /**
   * The constructor as intended: the corrected am/pm marker, and `error` set
   * only for a zone missing from the table (`offset === undefined` rather
   * than `!offset`).
   */
  function ClockFixed(hours: nat, minutes: nat, pm: Option<string>, tz: Option<string>, offsets: map<string, int>): (t: FetchTime)
    ensures t.error.Some? <==> HasZone(tz) && tz.value !in offsets
    ensures HasZone(tz) && tz.value !in offsets ==> t.date.None?
    ensures !HasZone(tz) ==>
      t.date == MakeDate(Some(MeridiemHourFixed(hours, pm) * MS_PER_HOUR + minutes * MS_PER_MIN))
    ensures HasZone(tz) && tz.value in offsets ==>
      t.date == MakeDate(Some(MeridiemHourFixed(hours, pm) * MS_PER_HOUR + minutes * MS_PER_MIN
                              - offsets[tz.value] * MS_PER_MIN))
  {
    var local := MeridiemHourFixed(hours, pm) * MS_PER_HOUR + minutes * MS_PER_MIN;
    if !HasZone(tz) then FetchTime(MakeDate(Some(local)), None)
    else if tz.value !in offsets then FetchTime(None, Some(UnknownZone(tz.value)))
    else FetchTime(MakeDate(Some(local - offsets[tz.value] * MS_PER_MIN)), None)
  }

  /** Away from 12 o'clock and zero-offset zones, the corrected constructor agrees with the one as written. */
  lemma ClockFixedAgrees(hours: nat, minutes: nat, pm: Option<string>, tz: Option<string>, offsets: map<string, int>)
    requires hours != 12
    requires HasZone(tz) && tz.value in offsets ==> offsets[tz.value] != 0
    ensures ClockFixed(hours, minutes, pm, tz, offsets) == Clock(hours, minutes, pm, tz, offsets)
  {
  }

  /** With the correction, 12pm is noon and 12am midnight, and a zero-offset zone is accepted. */
  lemma NoonFixed(offsets: map<string, int>)
    ensures Hours(ClockFixed(12, 0, Some("pm"), None, offsets)) == Some(12)
    ensures Hours(ClockFixed(12, 0, Some("am"), None, offsets)) == Some(0)
    ensures "UTC" in offsets && offsets["UTC"] == 0 ==> ClockFixed(9, 0, None, Some("UTC"), offsets) == FetchTime(Some(9 * MS_PER_HOUR), None)
  {
    assert Lower("am") == "am" && Lower("pm") == "pm";
  }

  /** An unknown timezone is reported, and the time is NaN rather than a silent zero offset. */
  lemma UnknownZoneReported(hours: nat, minutes: nat, pm: Option<string>, tz: string, offsets: map<string, int>)
    requires tz != "" && tz !in offsets
    ensures Clock(hours, minutes, pm, Some(tz), offsets) == FetchTime(None, Some(UnknownZone(tz)))
  {
  }
}
