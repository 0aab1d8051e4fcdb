/**
 * `Date.prototype.toISOString` on a UTC time value after the epoch: the
 * proleptic Gregorian calendar date and the time of day, written as
 * `YYYY-MM-DDTHH:mm:ss.sssZ` (years past 9999 as `+YYYYYY`), together with a
 * reader for the four-digit-year form.
 */
module IsoTime {
  import opened Wrappers
  import opened JsSemantics

  const SecondMs: nat := 1000
  const MinuteMs: nat := 60_000
  const HourMs: nat := 3_600_000
  const DayMs: nat := 86_400_000

  /** The largest time value a JavaScript Date can hold (8.64e15 ms). */
  const MaxTimeMs: nat := 8_640_000_000_000_000

  predicate IsLeapYear(y: int) {
    y % 4 == 0 && (y % 100 != 0 || y % 400 == 0)
  }

  function YearLength(y: int): nat {
    if IsLeapYear(y) then 366 else 365
  }

  function MonthLength(y: int, m: int): nat
    requires 1 <= m <= 12
  {
    if m == 2 then (if IsLeapYear(y) then 29 else 28)
    else if m == 4 || m == 6 || m == 9 || m == 11 then 30
    else 31
  }

  /** Days of year y that lie before the first of month m. */
  function DaysBeforeMonth(y: int, m: int): nat
    requires 1 <= m <= 12
  {
    var common := [0, 31, 59, 90, 120, 151, 181, 212, 243, 273, 304, 334][m - 1];
    common + (if m > 2 && IsLeapYear(y) then 1 else 0)
  }

  /** Days from 1970-01-01 to the first of January of year y. */
  function DaysBeforeYear(y: int): nat
    requires y >= 1970
    decreases y - 1970
  {
    if y == 1970 then 0 else DaysBeforeYear(y - 1) + YearLength(y - 1)
  }

  datatype CivilDate = CivilDate(year: int, month: int, day: int)

  predicate ValidDate(c: CivilDate) {
    c.year >= 1970 && 1 <= c.month <= 12 && 1 <= c.day <= MonthLength(c.year, c.month)
  }

  /** The number of days from 1970-01-01 to a calendar date. */
  function DayNumber(c: CivilDate): nat
    requires ValidDate(c)
  {
    DaysBeforeYear(c.year) + DaysBeforeMonth(c.year, c.month) + c.day - 1
  }

  /** The year a day count falls in, counting from the first of January of `year`, and the day within it. */
  function YearOf(days: nat, year: int): (r: (int, nat))
    requires year >= 1970
    ensures r.0 >= year && r.1 < YearLength(r.0)
    ensures DaysBeforeYear(r.0) + r.1 == DaysBeforeYear(year) + days
    decreases days
  {
    if days < YearLength(year) then (year, days)
    else YearOf(days - YearLength(year), year + 1)
  }

  /** The month a day of year y falls in, counting from the first of month m, and the day of that month. */
  function MonthOf(y: int, rest: nat, m: int): (r: (int, int))
    requires 1 <= m <= 12
    requires DaysBeforeMonth(y, m) + rest < YearLength(y)
    ensures m <= r.0 <= 12 && 1 <= r.1 <= MonthLength(y, r.0)
    ensures DaysBeforeMonth(y, r.0) + r.1 - 1 == DaysBeforeMonth(y, m) + rest
    decreases 12 - m
  {
    if rest < MonthLength(y, m) then (m, rest + 1)
    else MonthOf(y, rest - MonthLength(y, m), m + 1)
  }

  /** The calendar date of the day that lies `days` days after 1970-01-01. */
  function DateOfDay(days: nat): (c: CivilDate)
    ensures ValidDate(c)
    ensures DayNumber(c) == days
  {
    var (y, dayOfYear) := YearOf(days, 1970);
    var (m, d) := MonthOf(y, dayOfYear, 1);
    CivilDate(y, m, d)
  }

  // ---------------------------------------------------------------------------
  // Rendering

  function Pow10(w: nat): (r: nat)
    ensures r >= 1
  {
    if w == 0 then 1 else 10 * Pow10(w - 1)
  }

  /** `String(n).padStart(w, "0")` for n below 10^w. */
  function Pad(n: nat, w: nat): (r: string)
    ensures |r| == w && AllDigits(r)
  {
    if w == 0 then "" else Pad(n / 10, w - 1) + [DigitChar(n % 10)]
  }

  lemma {:induction false} PadValue(n: nat, w: nat)
    requires n < Pow10(w)
    ensures DecimalValue(Pad(n, w)) == n
  {
    if w > 0 {
      PadValue(n / 10, w - 1);
      var r := Pad(n, w);
      assert r[..|r| - 1] == Pad(n / 10, w - 1);
    }
  }

  function YearText(y: nat): string {
    if y <= 9999 then Pad(y, 4) else "+" + Pad(y, 6)
  }

  /** The ISO-8601 text of a time value, in UTC with millisecond precision. */
  function IsoInstant(ms: nat): (s: string)
    requires ms <= MaxTimeMs
    ensures DateOfDay(ms / DayMs).year <= 9999 ==> |s| == 24
  {
    var c := DateOfDay(ms / DayMs);
    var t := ms % DayMs;
    YearText(c.year) + "-" + Pad(c.month, 2) + "-" + Pad(c.day, 2)
      + "T" + Pad(t / HourMs, 2) + ":" + Pad(t / MinuteMs % 60, 2) + ":" + Pad(t / SecondMs % 60, 2)
      + "." + Pad(t % SecondMs, 3) + "Z"
  }

  // ---------------------------------------------------------------------------
  // Reading back

  function Field(s: string, from: nat, to: nat): Option<nat>
    requires from <= to <= |s|
  {
    if AllDigits(s[from..to]) then Some(DecimalValue(s[from..to])) else None
  }

  predicate SeparatorsAt(s: string) {
    |s| == 24 && s[4] == '-' && s[7] == '-' && s[10] == 'T' && s[13] == ':'
      && s[16] == ':' && s[19] == '.' && s[23] == 'Z'
  }

  /** The time value of a date and a time of day. */
  function TimeValue(c: CivilDate, h: nat, mi: nat, sec: nat, milli: nat): nat
    requires ValidDate(c)
  {
    var day: nat := DayNumber(c);
    var dayStart: nat := day * DayMs;
    dayStart + h * HourMs + mi * MinuteMs + sec * SecondMs + milli
  }

  /** Reads `YYYY-MM-DDTHH:mm:ss.sssZ` back into a time value; None if it is not one. */
  function ParseIso(s: string): Option<nat> {
    if !SeparatorsAt(s) then None
    else
      var y, mo, d := Field(s, 0, 4), Field(s, 5, 7), Field(s, 8, 10);
      var h, mi, sec, milli := Field(s, 11, 13), Field(s, 14, 16), Field(s, 17, 19), Field(s, 20, 23);
      if y.None? || mo.None? || d.None? || h.None? || mi.None? || sec.None? || milli.None? then None
      else
        var c := CivilDate(y.value, mo.value, d.value);
        if ValidDate(c) && h.value < 24 && mi.value < 60 && sec.value < 60 then
          Some(TimeValue(c, h.value, mi.value, sec.value, milli.value))
        else
          None
  }

  lemma FieldOfPad(s: string, from: nat, n: nat, w: nat)
    requires from + w <= |s| && s[from..from + w] == Pad(n, w) && n < Pow10(w)
    ensures Field(s, from, from + w) == Some(n)
  {
    PadValue(n, w);
  }

  lemma SplitTimeOfDay(t: nat)
    requires t < DayMs
    ensures t == (t / HourMs) * HourMs + (t / MinuteMs % 60) * MinuteMs + (t / SecondMs % 60) * SecondMs + t % SecondMs
    ensures t / HourMs < 24 && t / MinuteMs % 60 < 60 && t / SecondMs % 60 < 60 && t % SecondMs < 1000
  {
  }

  lemma Layout(s: string, y: string, mo: string, d: string, h: string, mi: string, sec: string, milli: string)
    requires |y| == 4 && |mo| == 2 && |d| == 2 && |h| == 2 && |mi| == 2 && |sec| == 2 && |milli| == 3
    requires s == y + "-" + mo + "-" + d + "T" + h + ":" + mi + ":" + sec + "." + milli + "Z"
    ensures SeparatorsAt(s)
    ensures s[0..4] == y && s[5..7] == mo && s[8..10] == d && s[11..13] == h
    ensures s[14..16] == mi && s[17..19] == sec && s[20..23] == milli
  {
    var head := y + "-" + mo + "-" + d + "T" + h + ":";
    assert |head| == 14;
    var tail := mi + ":" + sec + "." + milli + "Z";
    assert s == head + tail;
    assert s[14..] == tail;
    assert tail[0..2] == mi && tail[3..5] == sec && tail[6..9] == milli;
  }

  lemma Pow10Values()
    ensures Pow10(2) == 100 && Pow10(3) == 1000 && Pow10(4) == 10000
  {
  }

  /** ParseIso accepts a well-laid-out text whose fields read as a valid date and time of day. */
  lemma ParseOfFields(s: string, c: CivilDate, hv: nat, mv: nat, sv: nat, lv: nat)
    requires SeparatorsAt(s) && ValidDate(c) && hv < 24 && mv < 60 && sv < 60
    requires Field(s, 0, 4) == Some(c.year) && Field(s, 5, 7) == Some(c.month) && Field(s, 8, 10) == Some(c.day)
    requires Field(s, 11, 13) == Some(hv) && Field(s, 14, 16) == Some(mv)
    requires Field(s, 17, 19) == Some(sv) && Field(s, 20, 23) == Some(lv)
    ensures ParseIso(s) == Some(TimeValue(c, hv, mv, sv, lv))
  {
  }

  /** The date and the time of day of a time value add back up to it. */
  lemma TimeValueOfInstant(ms: nat)
    requires ms <= MaxTimeMs
    ensures var t := ms % DayMs;
            TimeValue(DateOfDay(ms / DayMs), t / HourMs, t / MinuteMs % 60, t / SecondMs % 60, t % SecondMs) == ms
  {
    var t := ms % DayMs;
    SplitTimeOfDay(t);
    assert ms == (ms / DayMs) * DayMs + t;
  }

  /** `s` is an ISO text that reads back as the time value `ms`. */
  predicate ReadsBackAs(s: string, ms: nat) {
    ParseIso(s) == Some(ms)
  }

  /** Reading back the ISO text of a time value gives the time value. */
  lemma IsoRoundTrip(ms: nat)
    requires ms <= MaxTimeMs
    requires DateOfDay(ms / DayMs).year <= 9999
    ensures ReadsBackAs(IsoInstant(ms), ms)
  {
    var c := DateOfDay(ms / DayMs);
    var t := ms % DayMs;
    var hv, mv, sv, lv := t / HourMs, t / MinuteMs % 60, t / SecondMs % 60, t % SecondMs;
    SplitTimeOfDay(t);
    InstantFields(ms);
    ParseOfFields(IsoInstant(ms), c, hv, mv, sv, lv);
    TimeValueOfInstant(ms);
  }

  /** The ISO text of a time value has its separators in place and each field reads back as its part. */
  lemma InstantFields(ms: nat)
    requires ms <= MaxTimeMs
    requires DateOfDay(ms / DayMs).year <= 9999
    ensures var c, t, s := DateOfDay(ms / DayMs), ms % DayMs, IsoInstant(ms);
            && SeparatorsAt(s)
            && Field(s, 0, 4) == Some(c.year) && Field(s, 5, 7) == Some(c.month) && Field(s, 8, 10) == Some(c.day)
            && Field(s, 11, 13) == Some(t / HourMs) && Field(s, 14, 16) == Some(t / MinuteMs % 60)
            && Field(s, 17, 19) == Some(t / SecondMs % 60) && Field(s, 20, 23) == Some(t % SecondMs)
  {
    var c := DateOfDay(ms / DayMs);
    var t := ms % DayMs;
    var s := IsoInstant(ms);
    var hv, mv, sv, lv := t / HourMs, t / MinuteMs % 60, t / SecondMs % 60, t % SecondMs;
    Layout(s, Pad(c.year, 4), Pad(c.month, 2), Pad(c.day, 2), Pad(hv, 2), Pad(mv, 2), Pad(sv, 2), Pad(lv, 3));
    SplitTimeOfDay(t);
    Pow10Values();
    DateFields(s, c);
    FieldOfPad(s, 11, hv, 2);
    FieldOfPad(s, 14, mv, 2);
    FieldOfPad(s, 17, sv, 2);
    FieldOfPad(s, 20, lv, 3);
  }

  lemma DateFields(s: string, c: CivilDate)
    requires ValidDate(c) && c.year <= 9999 && |s| == 24
    requires s[0..4] == Pad(c.year, 4) && s[5..7] == Pad(c.month, 2) && s[8..10] == Pad(c.day, 2)
    ensures Field(s, 0, 4) == Some(c.year) && Field(s, 5, 7) == Some(c.month) && Field(s, 8, 10) == Some(c.day)
  {
    Pow10Values();
    assert c.day <= 31;
    FieldOfPad(s, 0, c.year, 4);
    FieldOfPad(s, 5, c.month, 2);
    FieldOfPad(s, 8, c.day, 2);
  }
}
