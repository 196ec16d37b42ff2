/**
 * Timestamps of scope contracts (`parseIso` and `selectTimestamp` in
 * src/policy/scope-engine.mjs): the accepted grammar is a part of section 5.6
 * of RFC 3339, with milliseconds only and offsets up to 14:00.
 */
module Timestamps {
  import opened Wrappers
  import opened Calendar
  import Text

  // ---------------------------------------------------------------- digits

  predicate IsDigit(c: char) {
    '0' <= c <= '9'
  }

  function DigitOf(n: int): (c: char)
    requires 0 <= n <= 9
    ensures IsDigit(c) && c as int - '0' as int == n
  {
    (n + '0' as int) as char
  }

  function ValueOf(c: char): (n: int)
    requires IsDigit(c)
    ensures 0 <= n <= 9 && DigitOf(n) == c
  {
    c as int - '0' as int
  }

  predicate AllDigits(s: string) {
    forall i :: 0 <= i < |s| ==> IsDigit(s[i])
  }

  function Number(s: string): int
    requires AllDigits(s)
  {
    if s == "" then 0 else 10 * Number(s[..|s| - 1]) + ValueOf(s[|s| - 1])
  }

  function Pad(n: int, width: nat): (s: string)
    requires 0 <= n
    ensures |s| == width && AllDigits(s)
  {
    if width == 0 then "" else Pad(n / 10, width - 1) + [DigitOf(n % 10)]
  }

  function Power(width: nat): int {
    if width == 0 then 1 else 10 * Power(width - 1)
  }

  lemma {:induction false} NumberOfPad(n: int, width: nat)
    requires 0 <= n < Power(width)
    ensures Number(Pad(n, width)) == n
  {
    if width > 0 {
      NumberOfPad(n / 10, width - 1);
      assert Pad(n, width)[..width - 1] == Pad(n / 10, width - 1);
    }
  }

  lemma {:induction false} PadOfNumber(s: string)
    requires AllDigits(s)
    ensures 0 <= Number(s) < Power(|s|)
    ensures Pad(Number(s), |s|) == s
  {
    if s != "" {
      PadOfNumber(s[..|s| - 1]);
      assert s == s[..|s| - 1] + [s[|s| - 1]];
    }
  }

  // ---------------------------------------------------------------- the grammar

  datatype Zone = Zulu | Offset(ahead: bool, hours: int, minutes: int)

  datatype Stamp = Stamp(date: Date, hour: int, minute: int, second: int, millis: Option<int>, zone: Zone)

  predicate ValidZone(z: Zone) {
    z.Zulu? || (0 <= z.hours <= 13 && 0 <= z.minutes <= 59) || (z.hours == 14 && z.minutes == 0)
  }

  /** The fields that the pattern lets through; the day may still be missing from its month. */
  predicate Grammatical(t: Stamp) {
    && 0 <= t.date.year <= 9999 && 1 <= t.date.month <= 12 && 1 <= t.date.day <= 31
    && 0 <= t.hour <= 23 && 0 <= t.minute <= 59 && 0 <= t.second <= 59
    && (t.millis.Some? ==> 0 <= t.millis.value <= 999)
    && ValidZone(t.zone)
  }

  function FormatZone(z: Zone): string
    requires ValidZone(z)
  {
    if z.Zulu? then "Z" else [if z.ahead then '+' else '-'] + Pad(z.hours, 2) + ":" + Pad(z.minutes, 2)
  }

  function FormatTail(millis: Option<int>, z: Zone): string
    requires (millis.Some? ==> 0 <= millis.value) && ValidZone(z)
  {
    (if millis.Some? then "." + Pad(millis.value, 3) else "") + FormatZone(z)
  }

  function FormatHead(d: Date, hour: int, minute: int, second: int): string
    requires d.year >= 0 && d.month >= 0 && d.day >= 0 && hour >= 0 && minute >= 0 && second >= 0
  {
    Pad(d.year, 4) + "-" + Pad(d.month, 2) + "-" + Pad(d.day, 2) + "T"
    + Pad(hour, 2) + ":" + Pad(minute, 2) + ":" + Pad(second, 2)
  }

  function Format(t: Stamp): string
    requires Grammatical(t)
  {
    FormatHead(t.date, t.hour, t.minute, t.second) + FormatTail(t.millis, t.zone)
  }

  // ---------------------------------------------------------------- reading

  /** Digits from `lo` to `hi` whose number lies between the bounds. */
  predicate InRange(s: string, lo: nat, hi: nat, least: int, most: int) {
    lo <= hi <= |s| && AllDigits(s[lo..hi]) && least <= Number(s[lo..hi]) <= most
  }

  function ScanZone(s: string): Option<Zone> {
    if s == "Z" then Some(Zulu)
    else if |s| == 6 && (s[0] == '+' || s[0] == '-') && s[3] == ':' && InRange(s, 1, 3, 0, 99) && InRange(s, 4, 6, 0, 59)
            && ValidZone(Offset(true, Number(s[1..3]), Number(s[4..6])))
    then Some(Offset(s[0] == '+', Number(s[1..3]), Number(s[4..6])))
    else None
  }

  function ScanTail(s: string): (r: Option<(Option<int>, Zone)>)
    ensures r.Some? ==> ValidZone(r.value.1) && (r.value.0.Some? ==> 0 <= r.value.0.value <= 999)
  {
    if s != "" && s[0] == '.' then
      if !InRange(s, 1, 4, 0, 999) then None
      else match ScanZone(s[4..]) { case None => None case Some(z) => Some((Some(Number(s[1..4])), z)) }
    else match ScanZone(s) { case None => None case Some(z) => Some((None, z)) }
  }

  predicate HeadFits(s: string) {
    && |s| == 19 && InRange(s, 0, 4, 0, 9999) && s[4] == '-' && InRange(s, 5, 7, 1, 12) && s[7] == '-' && InRange(s, 8, 10, 1, 31)
    && s[10] == 'T' && InRange(s, 11, 13, 0, 23) && s[13] == ':' && InRange(s, 14, 16, 0, 59) && s[16] == ':' && InRange(s, 17, 19, 0, 59)
  }

  /** `SCOPE_TIMESTAMP_PATTERN`, with the fields it captures. */
  function Scan(s: string): (r: Option<Stamp>)
    ensures r.Some? ==> Grammatical(r.value)
  {
    if |s| < 19 || !HeadFits(s[..19]) then None
    else
      var h := s[..19];
      match ScanTail(s[19..])
      case None => None
      case Some((millis, zone)) =>
        Some(Stamp(Date(Number(h[0..4]), Number(h[5..7]), Number(h[8..10])),
                   Number(h[11..13]), Number(h[14..16]), Number(h[17..19]), millis, zone))
  }

  const DAY_MS := 86400000

  function ClockMs(c: Clock): int {
    c.hour * 3600000 + c.minute * 60000 + c.second * 1000 + c.ms
  }

  function TimeAt(day: int, c: Clock): int {
    day * DAY_MS + ClockMs(c)
  }

  /** `wallClock.getTime()` */
  function WallClock(t: Stamp): int
    requires 1 <= t.date.month <= 12
  {
    TimeAt(DayNumber(t.date), Entered(t).1)
  }

  function OffsetMs(z: Zone): int {
    if z.Zulu? then 0 else (if z.ahead then 1 else -1) * (z.hours * 60 + z.minutes) * 60000
  }

  function Instant(t: Stamp): int
    requires 1 <= t.date.month <= 12
  {
    WallClock(t) - OffsetMs(t.zone)
  }

  /** Hours, minutes, seconds and milliseconds. */
  datatype Clock = Clock(hour: int, minute: int, second: int, ms: int)

  function ClockOf(rest: int): Clock {
    Clock(rest / 3600000, rest / 60000 % 60, rest / 1000 % 60, rest % 1000)
  }

  /** What a `Date` shows of a time value. */
  function Shows(time: int): (Date, Clock) {
    (CivilOf(time / DAY_MS), ClockOf(time % DAY_MS))
  }

  /** What was put into it. */
  function Entered(t: Stamp): (Date, Clock) {
    (t.date, Clock(t.hour, t.minute, t.second, if t.millis.Some? then t.millis.value else 0))
  }

  datatype TimestampError = NotAString | NotCanonical | Impossible

  /** `parseIso`: the fields are put into a `Date`, which must show them again. */
  function ParseIso(s: string): Result<int, TimestampError> {
    if !Text.TrimmedLine(s) then Err(NotAString)
    else match Scan(s) {
      case None => Err(NotCanonical)
      case Some(t) =>
        if Shows(WallClock(t)) != Entered(t) then Err(Impossible)
        else Ok(Instant(t))
    }
  }

  // ---------------------------------------------------------------- the reader and the grammar agree

  lemma PadIff(w: string, n: int)
    requires 0 <= n < Power(|w|)
    ensures w == Pad(n, |w|) <==> AllDigits(w) && Number(w) == n
  {
    NumberOfPad(n, |w|);
    if AllDigits(w) { PadOfNumber(w); }
  }

  lemma Powers()
    ensures Power(2) == 100 && Power(3) == 1000 && Power(4) == 10000
  {
    assert Power(2) == 10 * Power(1) && Power(4) == 10 * Power(3);
  }

  lemma OffsetSlices(s: string, sign: char, h: string, m: string)
    requires |h| == 2 && |m| == 2
    ensures s == [sign] + h + ":" + m <==> |s| == 6 && s[0] == sign && s[1..3] == h && s[3] == ':' && s[4..6] == m
  {
    if |s| == 6 { assert s == [s[0]] + s[1..3] + [s[3]] + s[4..6]; }
    var f := [sign] + h + ":" + m;
    assert f[1..3] == h && f[4..6] == m;
  }

  lemma OffsetWritten(s: string, z: Zone)
    requires z.Offset? && ValidZone(z) && s == FormatZone(z)
    ensures ScanZone(s) == Some(z)
  {
    Powers();
    OffsetSlices(s, if z.ahead then '+' else '-', Pad(z.hours, 2), Pad(z.minutes, 2));
    PadIff(s[1..3], z.hours);
    PadIff(s[4..6], z.minutes);
  }

  lemma OffsetRead(s: string, z: Zone)
    requires z.Offset? && ScanZone(s) == Some(z)
    ensures ValidZone(z) && s == FormatZone(z)
  {
    Powers();
    PadIff(s[1..3], z.hours);
    PadIff(s[4..6], z.minutes);
    OffsetSlices(s, if z.ahead then '+' else '-', Pad(z.hours, 2), Pad(z.minutes, 2));
  }

  lemma ZoneIff(s: string, z: Zone)
    ensures ScanZone(s) == Some(z) <==> ValidZone(z) && s == FormatZone(z)
  {
    if z.Offset? {
      if ScanZone(s) == Some(z) { OffsetRead(s, z); }
      if ValidZone(z) && s == FormatZone(z) { OffsetWritten(s, z); }
    }
  }

  lemma TailIff(s: string, millis: Option<int>, z: Zone)
    requires millis.Some? ==> 0 <= millis.value <= 999
    ensures ScanTail(s) == Some((millis, z)) <==> ValidZone(z) && s == FormatTail(millis, z)
  {
    Powers();
    if millis.None? {
      ZoneIff(s, z);
      if ValidZone(z) && s == FormatZone(z) { assert s[0] != '.'; }
    } else {
      if ValidZone(z) && s == FormatTail(millis, z) {
        assert s[1..4] == Pad(millis.value, 3) && s[4..] == FormatZone(z);
        PadIff(s[1..4], millis.value);
        ZoneIff(s[4..], z);
      }
      if ScanTail(s) == Some((millis, z)) {
        PadIff(s[1..4], millis.value);
        ZoneIff(s[4..], z);
        assert s == "." + s[1..4] + s[4..];
      }
    }
  }

  /** The six numbers of a head. */
  predicate HeadReads(h: string, d: Date, hour: int, minute: int, second: int) {
    && HeadFits(h) && d == Date(Number(h[0..4]), Number(h[5..7]), Number(h[8..10]))
    && hour == Number(h[11..13]) && minute == Number(h[14..16]) && second == Number(h[17..19])
  }

  predicate HeadGrammatical(d: Date, hour: int, minute: int, second: int) {
    && 0 <= d.year <= 9999 && 1 <= d.month <= 12 && 1 <= d.day <= 31
    && 0 <= hour <= 23 && 0 <= minute <= 59 && 0 <= second <= 59
  }

  lemma Slices(h: string, y: string, mo: string, d: string, ho: string, mi: string, se: string)
    requires |y| == 4 && |mo| == 2 && |d| == 2 && |ho| == 2 && |mi| == 2 && |se| == 2
    ensures h == y + "-" + mo + "-" + d + "T" + ho + ":" + mi + ":" + se <==>
            |h| == 19 && h[0..4] == y && h[4] == '-' && h[5..7] == mo && h[7] == '-' && h[8..10] == d && h[10] == 'T'
            && h[11..13] == ho && h[13] == ':' && h[14..16] == mi && h[16] == ':' && h[17..19] == se
  {
    if |h| == 19 {
      assert h == h[0..4] + [h[4]] + h[5..7] + [h[7]] + h[8..10] + [h[10]] + h[11..13] + [h[13]] + h[14..16] + [h[16]] + h[17..19];
    }
    var f := y + "-" + mo + "-" + d + "T" + ho + ":" + mi + ":" + se;
    assert f[0..4] == y && f[5..7] == mo && f[8..10] == d && f[11..13] == ho && f[14..16] == mi && f[17..19] == se;
  }

  lemma HeadIff(h: string, d: Date, hour: int, minute: int, second: int)
    ensures HeadReads(h, d, hour, minute, second) <==>
            HeadGrammatical(d, hour, minute, second) && h == FormatHead(d, hour, minute, second)
  {
    Powers();
    if HeadGrammatical(d, hour, minute, second) {
      Slices(h, Pad(d.year, 4), Pad(d.month, 2), Pad(d.day, 2), Pad(hour, 2), Pad(minute, 2), Pad(second, 2));
      if |h| == 19 {
        PadIff(h[0..4], d.year);
        PadIff(h[5..7], d.month);
        PadIff(h[8..10], d.day);
        PadIff(h[11..13], hour);
        PadIff(h[14..16], minute);
        PadIff(h[17..19], second);
      }
    }
  }

  /** The pattern accepts exactly the formats of grammatical stamps, and reads their fields back. */
  lemma ScanIff(s: string, t: Stamp)
    ensures Scan(s) == Some(t) <==> Grammatical(t) && s == Format(t)
  {
    if Grammatical(t) {
      var head, tail := FormatHead(t.date, t.hour, t.minute, t.second), FormatTail(t.millis, t.zone);
      if s == Format(t) { assert s[..19] == head && s[19..] == tail; }
      if |s| >= 19 {
        HeadIff(s[..19], t.date, t.hour, t.minute, t.second);
        TailIff(s[19..], t.millis, t.zone);
        assert s == s[..19] + s[19..];
      }
    }
  }

  lemma DayPart(n: int, rest: int)
    requires 0 <= rest < DAY_MS
    ensures (n * DAY_MS + rest) / DAY_MS == n && (n * DAY_MS + rest) % DAY_MS == rest
  {
  }

  lemma ClockComesBack(c: Clock)
    requires 0 <= c.hour <= 23 && 0 <= c.minute <= 59 && 0 <= c.second <= 59 && 0 <= c.ms <= 999
    ensures 0 <= ClockMs(c) < DAY_MS && ClockOf(ClockMs(c)) == c
  {
    var rest := ClockMs(c);
    assert rest / 60000 == c.hour * 60 + c.minute;
    assert rest / 1000 == (c.hour * 60 + c.minute) * 60 + c.second;
  }

  lemma ShowsParts(time: int, n: int, c: Clock)
    requires 0 <= c.hour <= 23 && 0 <= c.minute <= 59 && 0 <= c.second <= 59 && 0 <= c.ms <= 999
    requires time / DAY_MS == n && time % DAY_MS == ClockMs(c)
    ensures Shows(time) == (CivilOf(n), c)
  {
    ClockComesBack(c);
  }

  lemma WallClockParts(t: Stamp)
    requires Grammatical(t)
    ensures WallClock(t) / DAY_MS == DayNumber(t.date) && WallClock(t) % DAY_MS == ClockMs(Entered(t).1)
  {
    ClockComesBack(Entered(t).1);
    DayPart(DayNumber(t.date), ClockMs(Entered(t).1));
  }

  /** A `Date` shows the clock that was put in, and shows the date again exactly when its month has the day. */
  lemma ShowsIff(t: Stamp)
    requires Grammatical(t)
    ensures Shows(WallClock(t)) == Entered(t) <==> RealStamp(t)
  {
    WallClockParts(t);
    ShowsParts(WallClock(t), DayNumber(t.date), Entered(t).1);
    RollOverIff(t.date);
  }

  lemma FormatIsTrimmed(t: Stamp)
    requires Grammatical(t)
    ensures Text.TrimmedLine(Format(t))
  {
    var s := Format(t);
    assert IsDigit(s[0]);
    assert forall c :: IsDigit(c) ==> !Text.IsSpace(c);
    if t.zone.Zulu? {
      assert s[|s| - 1] == 'Z';
    } else {
      var p := Pad(t.zone.minutes, 2);
      assert s[|s| - 1] == p[1];
    }
    OneLine(t);
  }

  predicate Plain(s: string) {
    forall i :: 0 <= i < |s| ==> s[i] != '\r' && s[i] != '\n'
  }

  lemma Joined(a: string, b: string)
    requires Plain(a) && Plain(b)
    ensures Plain(a + b)
  {
  }

  lemma PadIsPlain(n: int, width: nat)
    requires 0 <= n
    ensures Plain(Pad(n, width))
  {
  }

  lemma HeadIsPlain(d: Date, hour: int, minute: int, second: int)
    requires HeadGrammatical(d, hour, minute, second)
    ensures Plain(FormatHead(d, hour, minute, second))
  {
    PadIsPlain(d.year, 4);
    PadIsPlain(d.month, 2);
    PadIsPlain(d.day, 2);
    PadIsPlain(hour, 2);
    PadIsPlain(minute, 2);
    PadIsPlain(second, 2);
  }

  lemma OneLine(t: Stamp)
    requires Grammatical(t)
    ensures Plain(Format(t))
  {
    HeadIsPlain(t.date, t.hour, t.minute, t.second);
    assert Plain(FormatZone(t.zone));
    assert Plain(FormatTail(t.millis, t.zone));
    Joined(FormatHead(t.date, t.hour, t.minute, t.second), FormatTail(t.millis, t.zone));
  }

  /** A stamp of a day and a time that exist. */
  predicate RealStamp(t: Stamp) {
    Grammatical(t) && t.date.day <= DaysInMonth(t.date.year, t.date.month)
  }

  /** `parseIso` accepts exactly the stamps that exist, and returns their instant. */
  lemma ParseIsoIff(s: string, instant: int)
    ensures ParseIso(s) == Ok(instant) <==> exists t :: RealStamp(t) && s == Format(t) && Instant(t) == instant
  {
    if ParseIso(s) == Ok(instant) {
      var t := Scan(s).value;
      ScanIff(s, t);
      ShowsIff(t);
    }
    if t :| RealStamp(t) && s == Format(t) && Instant(t) == instant {
      ScanIff(s, t);
      ShowsIff(t);
      FormatIsTrimmed(t);
    }
  }

  /** No two stamps are written alike. */
  lemma FormatInjective(t: Stamp, u: Stamp)
    requires Grammatical(t) && Grammatical(u) && Format(t) == Format(u)
    ensures t == u
  {
    ScanIff(Format(t), t);
    ScanIff(Format(t), u);
  }
}
