/**
 * Cell values of the SonarCloud measure tables: the type coercion applied to
 * every history value (`safe_cast`) and the normalisation of analysis
 * timestamps such as `2021-03-04T05:06:07+0100` to UTC (`process_datetime`).
 * A timestamp is the number of seconds since 0001-01-01T00:00:00.
 */
module SonarValues {
  import opened Wrappers
  import PyStr

  /** A cell of the measure table. `FloatText` keeps the text handed to `float()`. */
  datatype Value = Null | IntValue(i: int) | FloatText(raw: string) | BoolValue(b: bool) | Text(s: string) | Time(seconds: int)

  // ------------------------------------------------------------- safe_cast

  /** `str(val)` for a text or `None`. */
  function Str(val: Option<string>): string
  {
    if val.None? then "None" else val.value
  }

  predicate IsIntType(t: string) { t == "INT" || t == "WORK_DUR" }
  predicate IsFloatType(t: string) { t == "FLOAT" || t == "PERCENT" || t == "RATING" }

  /** `safe_cast(val, to_type)`. The MILLISEC test compares the builtin `type`
      rather than `to_type`, so it never holds and MILLISEC values take the
      `str` branch like every type not listed. */
  function SafeCast(val: Option<string>, toType: string): (r: Value)
    ensures IsIntType(toType) ==>
      && (r.IntValue? <==> val.Some? && PyStr.IsIntLiteral(PyStr.IntStrip(val.value)))
      && (r.IntValue? ==> r.i == PyStr.LiteralValue(PyStr.IntStrip(val.value)))
      && (!r.IntValue? ==> r == Null)
    ensures IsFloatType(toType) ==> r == if val.None? then Null else FloatText(val.value)
    ensures toType == "BOOL" ==> r == BoolValue(val.Some? && val.value != "")
    ensures !IsIntType(toType) && !IsFloatType(toType) && toType != "BOOL" ==> r == Text(Str(val))
  {
    if IsIntType(toType) then
      if val.None? then Null
      else match PyStr.ParseInt(val.value)
        case None => Null
        case Some(i) => IntValue(i)
    else if IsFloatType(toType) then
      if val.None? then Null else FloatText(val.value)
    else if toType == "BOOL" then BoolValue(val.Some? && |val.value| > 0)
    else Text(Str(val))
  }

  /** An integer written by `str()` and read back by `safe_cast` is the same
      integer; past the digit limit `int()` raises and the cast gives `None`. */
  lemma SafeCastIntRoundTrip(i: int, toType: string)
    requires IsIntType(toType)
    ensures SafeCast(Some(PyStr.IntToString(i)), toType) == if PyStr.StrWritable(i) then IntValue(i) else Null
  {
    PyStr.ParseIntOfIntToString(i);
  }

  /** MILLISEC values are not converted: they stay text. */
  lemma SafeCastMillisecIsText(val: Option<string>)
    ensures SafeCast(val, "MILLISEC") == Text(Str(val))
  {
  }

  // ------------------------------------------------------- calendar times

  datatype DateTime = DateTime(year: int, month: int, day: int, hour: int, minute: int, second: int)

  predicate IsLeap(y: int)
  {
    y % 4 == 0 && (y % 100 != 0 || y % 400 == 0)
  }

  function DaysInMonth(y: int, m: int): int
  {
    if m == 2 then (if IsLeap(y) then 29 else 28)
    else if m == 4 || m == 6 || m == 9 || m == 11 then 30
    else 31
  }

  /** What `datetime(...)` accepts. */
  predicate ValidDateTime(dt: DateTime)
  {
    && 1 <= dt.year <= 9999 && 1 <= dt.month <= 12 && 1 <= dt.day <= DaysInMonth(dt.year, dt.month)
    && 0 <= dt.hour <= 23 && 0 <= dt.minute <= 59 && 0 <= dt.second <= 59
  }

  /** Days from 0001-01-01 to January 1st of year `y` (proleptic Gregorian calendar). */
  function DaysBeforeYear(y: int): int
  {
    var q := y - 1;
    365 * q + q / 4 - q / 100 + q / 400
  }

  /** Days from January 1st to the first day of month `m`. */
  function DaysBeforeMonth(y: int, m: int): int
    requires 1 <= m <= 12
    decreases m
  {
    if m == 1 then 0 else DaysBeforeMonth(y, m - 1) + DaysInMonth(y, m - 1)
  }

  function Seconds(dt: DateTime): int
    requires 1 <= dt.month <= 12
  {
    ((DaysBeforeYear(dt.year) + DaysBeforeMonth(dt.year, dt.month) + dt.day - 1) * 24 + dt.hour) * 3600
      + dt.minute * 60 + dt.second
  }

  /** The last second `datetime` can hold: 9999-12-31T23:59:59. */
  const MaxSeconds: int := DaysBeforeYear(10000) * 86400 - 1

  function DaysInYear(y: int): int
  {
    if IsLeap(y) then 366 else 365
  }

  lemma YearStep(y: int)
    requires y >= 1
    ensures DaysBeforeYear(y + 1) == DaysBeforeYear(y) + DaysInYear(y)
  {
    var q := y - 1;
    assert y / 4 == q / 4 + (if y % 4 == 0 then 1 else 0);
    assert y / 100 == q / 100 + (if y % 100 == 0 then 1 else 0);
    assert y / 400 == q / 400 + (if y % 400 == 0 then 1 else 0);
  }

  lemma {:induction false} YearsFit(y: int)
    requires 1 <= y <= 9999
    ensures 0 <= DaysBeforeYear(y) && DaysBeforeYear(y) + DaysInYear(y) <= DaysBeforeYear(10000)
    decreases 10000 - y
  {
    YearStep(y);
    if y < 9999 {
      YearsFit(y + 1);
    }
    var q := y - 1;
    assert q / 100 <= q;
  }

  lemma MonthsFit(y: int, m: int)
    requires 1 <= m <= 12
    ensures 0 <= DaysBeforeMonth(y, m) && DaysBeforeMonth(y, m) + DaysInMonth(y, m) <= DaysInYear(y)
  {
    var feb := DaysInMonth(y, 2);
    assert DaysBeforeMonth(y, 2) == 31;
    assert DaysBeforeMonth(y, 3) == 31 + feb;
    assert DaysBeforeMonth(y, 4) == 62 + feb;
    assert DaysBeforeMonth(y, 5) == 92 + feb;
    assert DaysBeforeMonth(y, 6) == 123 + feb;
    assert DaysBeforeMonth(y, 7) == 153 + feb;
    assert DaysBeforeMonth(y, 8) == 184 + feb;
    assert DaysBeforeMonth(y, 9) == 215 + feb;
    assert DaysBeforeMonth(y, 10) == 245 + feb;
    assert DaysBeforeMonth(y, 11) == 276 + feb;
    assert DaysBeforeMonth(y, 12) == 306 + feb;
  }

  /** Every time `datetime` accepts lies within its range: only an offset can
      move a parsed time out of it. */
  lemma SecondsInRange(dt: DateTime)
    requires ValidDateTime(dt)
    ensures 0 <= Seconds(dt) <= MaxSeconds
  {
    YearsFit(dt.year);
    MonthsFit(dt.year, dt.month);
    var days := DaysBeforeYear(dt.year) + DaysBeforeMonth(dt.year, dt.month) + dt.day - 1;
    var limit := DaysBeforeYear(10000);
    assert 0 <= days <= limit - 1;
    var inDay := dt.hour * 3600 + dt.minute * 60 + dt.second;
    assert 0 <= inDay <= 86399;
    assert Seconds(dt) == days * 86400 + inDay;
    assert days * 86400 <= (limit - 1) * 86400;
  }

  // -------------------------------------------------------- the timestamp

  /** `int()` of a run of ASCII digits. */
  function DigitsValue(t: string, i: nat, n: nat): nat
    requires i + n <= |t|
  {
    PyStr.DecimalValue(t[i..i + n], 0)
  }

  predicate DigitsAt(t: string, i: nat, n: nat)
    requires i + n <= |t|
  {
    forall k :: i <= k < i + n ==> PyStr.IsDigit(t[k])
  }

  /** `%d` also matches a space followed by a digit. */
  predicate DayAt(t: string, i: nat)
    requires i + 2 <= |t|
  {
    DigitsAt(t, i, 2) || (t[i] == ' ' && PyStr.IsDigit(t[i + 1]))
  }

  function DayValue(t: string, i: nat): nat
    requires i + 2 <= |t|
  {
    if t[i] == ' ' then PyStr.DigitValue(t[i + 1]) else DigitsValue(t, i, 2)
  }

  /** `datetime.strptime(t, "%Y-%m-%dT%H:%M:%S")` for a text of 19 characters.
      The fields' widths add up to 19 only when each is as wide as it can be,
      so the layout is fixed; the literal `T` matches either case. */
  function ParseLocal(t: string): (r: Option<DateTime>)
    requires |t| == 19
    ensures r.Some? ==> ValidDateTime(r.value)
  {
    if && DigitsAt(t, 0, 4) && t[4] == '-' && DigitsAt(t, 5, 2) && t[7] == '-' && DayAt(t, 8)
       && (t[10] == 'T' || t[10] == 't') && DigitsAt(t, 11, 2) && t[13] == ':'
       && DigitsAt(t, 14, 2) && t[16] == ':' && DigitsAt(t, 17, 2)
    then
      var dt := DateTime(DigitsValue(t, 0, 4), DigitsValue(t, 5, 2), DayValue(t, 8),
                         DigitsValue(t, 11, 2), DigitsValue(t, 14, 2), DigitsValue(t, 17, 2));
      if ValidDateTime(dt) then Some(dt) else None
    else None
  }

  /** The outcome of `process_datetime`: `None`, a time, or an exception
      (`ValueError` from parsing, `OverflowError` past the calendar's ends). */
  datatype Moment = NoTime | At(seconds: int) | Raises

  /** `process_datetime(time_str)`: the local time of the first 19 characters,
      moved by the offset `int(s[20:22])` hours `int(s[22:24])` minutes — forward
      when character 19 is `-`, back when it is `+`, not at all otherwise. */
  function ProcessDatetime(s: Option<string>): (r: Moment)
    ensures s.None? <==> r == NoTime
    ensures r.At? ==> 0 <= r.seconds <= MaxSeconds
  {
    if s.None? then NoTime
    else
      var str := s.value;
      if |str| < 19 then Raises
      else match ParseLocal(str[..19])
        case None => Raises
        case Some(local) =>
          match (PyStr.ParseInt(PyStr.Slice(str, 20, 22)), PyStr.ParseInt(PyStr.Slice(str, 22, 24)))
          case (Some(h), Some(m)) =>
            var offset := h * 3600 + m * 60;
            var t := if str[19] == '-' then Seconds(local) + offset
                     else if str[19] == '+' then Seconds(local) - offset
                     else Seconds(local);
            if 0 <= t <= MaxSeconds then At(t) else Raises
          case _ => Raises
  }

  // ------------------------------------------------------------- rendering

  /** `n` written with exactly `w` digits, zero-padded on the left. */
  function Pad(n: nat, w: nat): (r: string)
    ensures |r| == w && forall k :: 0 <= k < w ==> PyStr.IsDigit(r[k])
    decreases w
  {
    if w == 0 then "" else Pad(n / 10, w - 1) + [PyStr.DigitChar(n % 10)]
  }

  function Pow10(w: nat): nat
  {
    if w == 0 then 1 else 10 * Pow10(w - 1)
  }

  lemma {:induction false} PadValue(n: nat, w: nat)
    requires n < Pow10(w)
    ensures PyStr.DecimalValue(Pad(n, w), 0) == n
    decreases w
  {
    if w > 0 {
      PadValue(n / 10, w - 1);
      PyStr.DecimalValueSnoc(Pad(n / 10, w - 1), PyStr.DigitChar(n % 10), 0);
    }
  }

  /** `dt.isoformat()` for a time with whole seconds. */
  function Render(dt: DateTime): (r: string)
    requires ValidDateTime(dt)
    ensures |r| == 19
  {
    Pad(dt.year, 4) + "-" + Pad(dt.month, 2) + "-" + Pad(dt.day, 2) + "T"
      + Pad(dt.hour, 2) + ":" + Pad(dt.minute, 2) + ":" + Pad(dt.second, 2)
  }

  lemma FieldOf(t: string, i: nat, n: nat, v: nat)
    requires i + n <= |t| && t[i..i + n] == Pad(v, n) && v < Pow10(n)
    ensures DigitsAt(t, i, n) && DigitsValue(t, i, n) == v
  {
    PadValue(v, n);
    forall k | i <= k < i + n ensures PyStr.IsDigit(t[k]) {
      assert t[k] == t[i..i + n][k - i];
    }
  }

  /** Parsing a rendered time gives the time back. */
  lemma ParseRender(dt: DateTime)
    requires ValidDateTime(dt)
    ensures ParseLocal(Render(dt)) == Some(dt)
  {
    var t := Render(dt);
    assert t[0..4] == Pad(dt.year, 4);
    assert t[5..7] == Pad(dt.month, 2);
    assert t[8..10] == Pad(dt.day, 2);
    assert t[11..13] == Pad(dt.hour, 2);
    assert t[14..16] == Pad(dt.minute, 2);
    assert t[17..19] == Pad(dt.second, 2);
    FieldOf(t, 0, 4, dt.year);
    FieldOf(t, 5, 2, dt.month);
    FieldOf(t, 8, 2, dt.day);
    FieldOf(t, 11, 2, dt.hour);
    FieldOf(t, 14, 2, dt.minute);
    FieldOf(t, 17, 2, dt.second);
  }

  lemma ParsePad2(n: nat)
    requires n < 100
    ensures PyStr.ParseInt(Pad(n, 2)) == Some(n)
  {
    var u := Pad(n, 2);
    PadValue(n, 2);
    assert PyStr.IsDigitGroup(u);
    assert !PyStr.IsIntSpace(u[0]) && !PyStr.IsIntSpace(u[1]);
    PyStr.ParseIntIgnoresSpace("", u, "");
    assert "" + u + "" == u;
  }

  /** The offset arithmetic of `process_datetime`, once the three parses succeed. */
  lemma ProcessDatetimeParsed(s: string, local: DateTime, h: int, m: int)
    requires |s| >= 20 && ParseLocal(s[..19]) == Some(local)
    requires PyStr.ParseInt(PyStr.Slice(s, 20, 22)) == Some(h) && PyStr.ParseInt(PyStr.Slice(s, 22, 24)) == Some(m)
    ensures var offset := h * 3600 + m * 60;
      var t := if s[19] == '+' then Seconds(local) - offset
               else if s[19] == '-' then Seconds(local) + offset
               else Seconds(local);
      ProcessDatetime(Some(s)) == if 0 <= t <= MaxSeconds then At(t) else Raises
  {
  }

  lemma ProcessZoned(local: string, dt: DateTime, sign: char, hours: nat, minutes: nat)
    requires |local| == 19 && ParseLocal(local) == Some(dt) && hours < 100 && minutes < 100
    ensures var offset := hours * 3600 + minutes * 60;
      var t := if sign == '+' then Seconds(dt) - offset
               else if sign == '-' then Seconds(dt) + offset
               else Seconds(dt);
      ProcessDatetime(Some(local + [sign] + Pad(hours, 2) + Pad(minutes, 2)))
        == if 0 <= t <= MaxSeconds then At(t) else Raises
  {
    var s := local + [sign] + Pad(hours, 2) + Pad(minutes, 2);
    ZoneFields(local, sign, hours, minutes);
    ParsePad2(hours);
    ParsePad2(minutes);
    ProcessDatetimeParsed(s, dt, hours, minutes);
  }

  /** Where the fields of a zoned time text sit. */
  lemma ZoneFields(local: string, sign: char, hours: nat, minutes: nat)
    requires |local| == 19
    ensures var s := local + [sign] + Pad(hours, 2) + Pad(minutes, 2);
      && |s| == 24 && s[..19] == local && s[19] == sign
      && PyStr.Slice(s, 20, 22) == Pad(hours, 2) && PyStr.Slice(s, 22, 24) == Pad(minutes, 2)
  {
    var zone := [sign] + Pad(hours, 2) + Pad(minutes, 2);
    var s := local + zone;
    assert local + [sign] + Pad(hours, 2) + Pad(minutes, 2) == s;
    assert s[..19] == local;
    assert s[19] == zone[0] == sign;
    assert PyStr.Slice(s, 20, 22) == zone[1..3] == Pad(hours, 2);
    assert PyStr.Slice(s, 22, 24) == zone[3..5] == Pad(minutes, 2);
  }

  /** A time written as `YYYY-MM-DDTHH:MM:SS±HHMM` is normalised to UTC by
      subtracting a `+` offset and adding a `-` offset. */
  lemma ProcessRenderedOffset(dt: DateTime, sign: char, hours: nat, minutes: nat)
    requires ValidDateTime(dt) && (sign == '+' || sign == '-') && hours < 100 && minutes < 100
    ensures var offset := hours * 3600 + minutes * 60;
      var t := if sign == '+' then Seconds(dt) - offset else Seconds(dt) + offset;
      ProcessDatetime(Some(Render(dt) + [sign] + Pad(hours, 2) + Pad(minutes, 2)))
        == if 0 <= t <= MaxSeconds then At(t) else Raises
  {
    ParseRender(dt);
    ProcessZoned(Render(dt), dt, sign, hours, minutes);
  }
}
