/**
 * The `created_at` timestamp of a stored simulation and the two ways the
 * simulation service prints it: `isoformat()` and
 * `strftime("%d/%m/%Y à %H:%M")`.
 *
 * A timestamp is a naive Python `datetime` (the value `datetime.utcnow()`
 * returns): calendar fields down to the microsecond, no time zone.
 */
module Timestamps {
  import opened Wrappers
  import opened Digits

  datatype DateTime = DateTime(year: int, month: int, day: int, hour: int, minute: int, second: int, microsecond: int)

  /** The ranges Python's `datetime` enforces on each field (day validity per month is not modelled). */
  predicate ValidDateTime(t: DateTime)
  {
    1 <= t.year <= 9999 && 1 <= t.month <= 12 && 1 <= t.day <= 31 &&
    0 <= t.hour < 24 && 0 <= t.minute < 60 && 0 <= t.second < 60 &&
    0 <= t.microsecond < 1000000
  }

  /** `t` comes strictly before `u`: the fields compared from the year down. */
  predicate Earlier(t: DateTime, u: DateTime)
  {
    if t.year != u.year then t.year < u.year
    else if t.month != u.month then t.month < u.month
    else if t.day != u.day then t.day < u.day
    else if t.hour != u.hour then t.hour < u.hour
    else if t.minute != u.minute then t.minute < u.minute
    else if t.second != u.second then t.second < u.second
    else t.microsecond < u.microsecond
  }

  /** A position on a single time line, used to order timestamps as the database does. */
  function Ticks(t: DateTime): (ticks: int)
  {
    ((((((t.year * 12 + (t.month - 1)) * 31 + (t.day - 1)) * 24 + t.hour) * 60 + t.minute) * 60
      + t.second) * 1000000) + t.microsecond
  }

  /** On valid timestamps, ordering by `Ticks` is ordering by time, and equal ticks mean equal timestamps. */
  lemma TicksFollowTime(t: DateTime, u: DateTime)
    requires ValidDateTime(t) && ValidDateTime(u)
    ensures Ticks(t) < Ticks(u) <==> Earlier(t, u)
    ensures Ticks(t) == Ticks(u) <==> t == u
  {
    var s := ((t.year * 12 + (t.month - 1)) * 31 + (t.day - 1)) * 24 + t.hour;
    var v := ((u.year * 12 + (u.month - 1)) * 31 + (u.day - 1)) * 24 + u.hour;
    var a := (s * 60 + t.minute) * 60 + t.second;
    var b := (v * 60 + u.minute) * 60 + u.second;
    assert Ticks(t) == a * 1000000 + t.microsecond;
    assert Ticks(u) == b * 1000000 + u.microsecond;
    LexicographicStep(a, t.microsecond, b, u.microsecond, 1000000);
    LexicographicStep(s * 60 + t.minute, t.second, v * 60 + u.minute, u.second, 60);
    LexicographicStep(s, t.minute, v, u.minute, 60);
    var d := (t.year * 12 + (t.month - 1)) * 31 + (t.day - 1);
    var e := (u.year * 12 + (u.month - 1)) * 31 + (u.day - 1);
    LexicographicStep(d, t.hour, e, u.hour, 24);
    LexicographicStep(t.year * 12 + (t.month - 1), t.day - 1, u.year * 12 + (u.month - 1), u.day - 1, 31);
    LexicographicStep(t.year, t.month - 1, u.year, u.month - 1, 12);
  }

  /** Positional numbers: `hi * base + lo` with `0 <= lo < base` compare on `hi` first, then `lo`. */
  lemma LexicographicStep(hi1: int, lo1: int, hi2: int, lo2: int, base: int)
    requires base > 0 && 0 <= lo1 < base && 0 <= lo2 < base
    ensures hi1 * base + lo1 < hi2 * base + lo2 <==> hi1 < hi2 || (hi1 == hi2 && lo1 < lo2)
    ensures hi1 * base + lo1 == hi2 * base + lo2 <==> hi1 == hi2 && lo1 == lo2
  {
    if hi1 < hi2 {
      assert hi2 * base == hi1 * base + (hi2 - hi1) * base;
      AtLeastOnce(hi2 - hi1, base);
    } else if hi2 < hi1 {
      assert hi1 * base == hi2 * base + (hi1 - hi2) * base;
      AtLeastOnce(hi1 - hi2, base);
    }
  }

  /** A positive multiple of `b` is at least `b`. */
  lemma {:induction false} AtLeastOnce(k: int, b: int)
    requires k >= 1 && b > 0
    ensures k * b >= b
  {
    if k > 1 {
      AtLeastOnce(k - 1, b);
      assert k * b == (k - 1) * b + b;
    }
  }

  /**
   * `strftime("%d/%m/%Y à %H:%M")`: day, month, four-digit year, then hour
   * and minute. Seconds and microseconds are dropped.
   */
  function FormatCreatedAt(t: DateTime): (s: string)
    requires ValidDateTime(t)
    ensures |s| == 18
  {
    PadDigits(t.day, 2) + "/" + PadDigits(t.month, 2) + "/" + PadDigits(t.year, 4) + " à "
      + PadDigits(t.hour, 2) + ":" + PadDigits(t.minute, 2)
  }

  /** Day, month, year, hour and minute, as read back from a formatted timestamp. */
  datatype DisplayedFields = DisplayedFields(day: int, month: int, year: int, hour: int, minute: int)

  /** Reads a string of the `dd/mm/YYYY à HH:MM` shape; `None` for any other string. */
  function ReadCreatedAt(s: string): (fields: Option<DisplayedFields>)
  {
    if |s| == 18 && DigitsAt(s, 0, 2) && s[2] == '/' && DigitsAt(s, 3, 5) && s[5] == '/'
      && DigitsAt(s, 6, 10) && s[10..13] == " à " && DigitsAt(s, 13, 15) && s[15] == ':'
      && DigitsAt(s, 16, 18)
    then Some(DisplayedFields(ReadDigits(s[0..2]), ReadDigits(s[3..5]), ReadDigits(s[6..10]),
                              ReadDigits(s[13..15]), ReadDigits(s[16..18])))
    else None
  }

  /** The displayed timestamp shows exactly the day, month, year, hour and minute of `t`. */
  lemma FormatCreatedAtReadsBack(t: DateTime)
    requires ValidDateTime(t)
    ensures ReadCreatedAt(FormatCreatedAt(t)) == Some(DisplayedFields(t.day, t.month, t.year, t.hour, t.minute))
  {
    var s := FormatCreatedAt(t);
    assert s[0..2] == PadDigits(t.day, 2);
    assert s[3..5] == PadDigits(t.month, 2);
    assert s[6..10] == PadDigits(t.year, 4);
    assert s[10..13] == " à ";
    assert s[13..15] == PadDigits(t.hour, 2);
    assert s[16..18] == PadDigits(t.minute, 2);
    ReadPadDigits(t.day, 2);
    ReadPadDigits(t.month, 2);
    ReadPadDigits(t.year, 4);
    ReadPadDigits(t.hour, 2);
    ReadPadDigits(t.minute, 2);
  }

  /**
   * `datetime.isoformat()`: `YYYY-MM-DDTHH:MM:SS`, followed by `.ffffff`
   * only when the microsecond field is not zero.
   */
  function IsoFormat(t: DateTime): (s: string)
    requires ValidDateTime(t)
    ensures |s| == if t.microsecond == 0 then 19 else 26
  {
    IsoSeconds(t) + (if t.microsecond == 0 then "" else "." + PadDigits(t.microsecond, 6))
  }

  /** The part of `isoformat()` down to the second. */
  function IsoSeconds(t: DateTime): (s: string)
    requires ValidDateTime(t)
    ensures |s| == 19
  {
    PadDigits(t.year, 4) + "-" + PadDigits(t.month, 2) + "-" + PadDigits(t.day, 2) + "T"
      + PadDigits(t.hour, 2) + ":" + PadDigits(t.minute, 2) + ":" + PadDigits(t.second, 2)
  }

  /** Reads an `isoformat()` string back into a timestamp; `None` for any other string. */
  function ReadIsoFormat(s: string): (t: Option<DateTime>)
  {
    if |s| == 19 then ReadIsoSeconds(s)
    else if |s| == 26 && s[19] == '.' && DigitsAt(s, 20, 26) then
      match ReadIsoSeconds(s[..19])
      case Some(t) => Some(t.(microsecond := ReadDigits(s[20..26])))
      case None => None
    else None
  }

  /** Reads `YYYY-MM-DDTHH:MM:SS` into a timestamp with no microseconds. */
  function ReadIsoSeconds(s: string): (t: Option<DateTime>)
  {
    if |s| == 19 && DigitsAt(s, 0, 4) && s[4] == '-' && DigitsAt(s, 5, 7) && s[7] == '-'
      && DigitsAt(s, 8, 10) && s[10] == 'T' && DigitsAt(s, 11, 13) && s[13] == ':'
      && DigitsAt(s, 14, 16) && s[16] == ':' && DigitsAt(s, 17, 19)
    then Some(DateTime(ReadDigits(s[0..4]), ReadDigits(s[5..7]), ReadDigits(s[8..10]),
                       ReadDigits(s[11..13]), ReadDigits(s[14..16]), ReadDigits(s[17..19]), 0))
    else None
  }

  lemma IsoSecondsReadsBack(t: DateTime)
    requires ValidDateTime(t)
    ensures ReadIsoSeconds(IsoSeconds(t)) == Some(t.(microsecond := 0))
  {
    var s := IsoSeconds(t);
    assert s[0..4] == PadDigits(t.year, 4);
    assert s[5..7] == PadDigits(t.month, 2);
    assert s[8..10] == PadDigits(t.day, 2);
    assert s[11..13] == PadDigits(t.hour, 2);
    assert s[14..16] == PadDigits(t.minute, 2);
    assert s[17..19] == PadDigits(t.second, 2);
    ReadPadDigits(t.year, 4);
    ReadPadDigits(t.month, 2);
    ReadPadDigits(t.day, 2);
    ReadPadDigits(t.hour, 2);
    ReadPadDigits(t.minute, 2);
    ReadPadDigits(t.second, 2);
  }

  /** `isoformat()` loses nothing: the whole timestamp can be read back from it. */
  lemma IsoFormatReadsBack(t: DateTime)
    requires ValidDateTime(t)
    ensures ReadIsoFormat(IsoFormat(t)) == Some(t)
  {
    var s := IsoFormat(t);
    IsoSecondsReadsBack(t);
    if t.microsecond == 0 {
      assert s == IsoSeconds(t);
    } else {
      var fraction := PadDigits(t.microsecond, 6);
      assert s == IsoSeconds(t) + ("." + fraction);
      assert s[..19] == IsoSeconds(t);
      assert s[20..26] == fraction;
      assert DigitsAt(s, 20, 26);
      ReadPadDigits(t.microsecond, 6);
    }
  }

  /** Two timestamps with the same `isoformat()` are the same timestamp. */
  lemma IsoFormatInjective(t: DateTime, u: DateTime)
    requires ValidDateTime(t) && ValidDateTime(u)
    requires IsoFormat(t) == IsoFormat(u)
    ensures t == u
  {
    IsoFormatReadsBack(t);
    IsoFormatReadsBack(u);
  }
}
